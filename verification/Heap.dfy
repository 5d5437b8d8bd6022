/** The state as the program holds it: a struct whose slices are windows onto backing arrays that edits
    overwrite in place (internal/store/clone.go and the edits in internal/txn/txn.go). */
module Heap {
  import opened Model
  import Transactions

  /** A Go slice that starts at the front of its backing array; the capacity is the array's length. */
  datatype Slice<T> = Slice(arr: array?<T>, len: nat)

  ghost predicate SliceOk<T>(s: Slice<T>) {
    if s.arr == null then s.len == 0 else s.len <= s.arr.Length
  }

  function Elems<T>(s: Slice<T>): (r: seq<T>)
    requires SliceOk(s)
    reads s.arr
    ensures |r| == s.len
  {
    if s.arr == null then [] else s.arr[..s.len]
  }

  /** append: writes into spare capacity if there is any, else moves to a bigger array. */
  method Append<T(0)>(s: Slice<T>, x: T) returns (r: Slice<T>)
    requires SliceOk(s)
    modifies s.arr
    ensures SliceOk(r) && Elems(r) == old(Elems(s)) + [x]
    ensures r.arr != null && (r.arr == s.arr || fresh(r.arr))
    ensures r.len == s.len + 1 && r.arr[s.len] == x && forall j | 0 <= j < s.len :: r.arr[j] == old(s.arr[j])
  {
    if s.arr != null && s.len < s.arr.Length {
      s.arr[s.len] := x;
      r := Slice(s.arr, s.len + 1);
    } else {
      var bigger := new T[2 * s.len + 1];
      for i := 0 to s.len
        invariant bigger[..i] == old(Elems(s))[..i]
        invariant s.arr != null ==> s.arr[..] == old(s.arr[..])
      {
        bigger[i] := s.arr[i];
      }
      bigger[s.len] := x;
      assert bigger[..s.len] == old(Elems(s));
      r := Slice(bigger, s.len + 1);
    }
  }

  /** append(s[:i], s[i+1:]...): shifts the tail down within the same backing array. */
  method Delete<T>(s: Slice<T>, i: nat) returns (r: Slice<T>)
    requires SliceOk(s) && i < s.len
    modifies s.arr
    ensures SliceOk(r) && r.arr == s.arr && Elems(r) == Transactions.RemoveAt(old(Elems(s)), i)
    ensures r.len == s.len - 1 && forall j | 0 <= j < r.len :: r.arr[j] == old(s.arr[if j < i then j else j + 1])
  {
    for j := i to s.len - 1
      invariant forall l | 0 <= l < j :: s.arr[l] == old(s.arr[if l < i then l else l + 1])
      invariant forall l | j < l < s.len :: s.arr[l] == old(s.arr[l])
    {
      s.arr[j] := s.arr[j + 1];
    }
    r := Slice(s.arr, s.len - 1);
  }

  /** A slice freshly made from a list, as the registry functions return it. */
  method FromSeq<T(0)>(xs: seq<T>) returns (r: Slice<T>)
    ensures SliceOk(r) && Elems(r) == xs && r.arr != null && fresh(r.arr)
  {
    var a := new T[|xs|];
    for i := 0 to |xs|
      invariant a[..i] == xs[..i]
    {
      a[i] := xs[i];
    }
    r := Slice(a, |xs|);
  }

  /** A load balancer struct as stored in the slice: its mappings are a slice of their own. */
  datatype Cell = Cell(name: string, labelText: string, createdAt: Time, mappings: Slice<Mapping>)

  /** The slices are in bounds, all backing arrays are in repr and no two load balancers share one. */
  ghost predicate CellsOk(s: Slice<Cell>, repr: set<object>)
    reads s.arr
  {
    && SliceOk(s)
    && (s.arr != null ==> s.arr in repr)
    && (forall i | 0 <= i < s.len ::
          SliceOk(s.arr[i].mappings) && (s.arr[i].mappings.arr != null ==> s.arr[i].mappings.arr in repr))
    && (forall i, j | 0 <= i < j < s.len ::
          s.arr[i].mappings.arr != null ==> s.arr[i].mappings.arr != s.arr[j].mappings.arr)
  }

  class StateObj {
    var version: int
    var lbs: Slice<Cell>
    var allocs: Slice<PortAllocation>
    ghost var Repr: set<object>

    ghost predicate Valid()
      reads this, Repr
      ensures Valid() ==> this in Repr
    {
      && this in Repr
      && (lbs.arr != null ==> lbs.arr in Repr) && CellsOk(lbs, Repr)
      && SliceOk(allocs) && (allocs.arr != null ==> allocs.arr in Repr)
    }

    function LBAt(i: nat): (b: LoadBalancer)
      requires Valid() && i < lbs.len
      reads this, Repr
    {
      var c := lbs.arr[i];
      LoadBalancer(c.name, c.labelText, c.createdAt, Elems(c.mappings))
    }

    function LBs(): (r: seq<LoadBalancer>)
      requires Valid()
      reads this, Repr
      ensures |r| == lbs.len && forall i | 0 <= i < lbs.len :: r[i] == LBAt(i)
    {
      seq(lbs.len, i requires 0 <= i < lbs.len && Valid() reads this, Repr => LBAt(i))
    }

    /** The state this object represents. */
    function View(): State
      requires Valid()
      reads this, Repr
    {
      State(version, LBs(), Elems(allocs))
    }

    /** The state of a first start: no slices at all. */
    constructor (version: int)
      ensures Valid() && fresh(Repr) && View() == State(version, [], [])
    {
      this.version := version;
      lbs := Slice(null, 0);
      allocs := Slice(null, 0);
      Repr := {this};
    }

    constructor Of(version: int, lbs: Slice<Cell>, allocs: Slice<PortAllocation>, ghost parts: set<object>)
      requires CellsOk(lbs, parts) && SliceOk(allocs) && (allocs.arr != null ==> allocs.arr in parts)
      ensures Valid() && Repr == parts + {this}
      ensures this.version == version && this.lbs == lbs && this.allocs == allocs
    {
      this.version := version;
      this.lbs := lbs;
      this.allocs := allocs;
      Repr := parts + {this};
    }

    /** A deep copy: every backing array is new, so editing the copy touches nothing reachable from this. */
    method Clone() returns (out: StateObj)
      requires Valid()
      ensures out.Valid() && fresh(out.Repr) && out.View() == View()
    {
      var cells, copied := lbs, allocs;
      ghost var parts: set<object> := {};
      if lbs.arr != null {
        cells, parts := CloneCells(lbs, LBs());
      }
      if allocs.arr != null {
        copied := CopyOf(allocs);
        parts := parts + {copied.arr};
      }
      out := new StateObj.Of(version, cells, copied, parts);
      assert forall i | 0 <= i < lbs.len :: out.LBAt(i) == LBAt(i);
      assert out.LBs() == LBs();
    }

    method AppendLB(c: Cell)
      requires Valid() && c.mappings.arr == null && c.mappings.len == 0
      modifies Repr
      ensures Valid() && fresh(Repr - old(Repr))
      ensures View() == old(View()).(lbs := old(LBs()) + [LoadBalancer(c.name, c.labelText, c.createdAt, [])])
    {
      AppendCell(c);
    }

    method AppendCell(c: Cell)
      requires Valid() && c.mappings.arr == null && c.mappings.len == 0
      modifies this`lbs, this`Repr, lbs.arr
      ensures Valid() && fresh(Repr - old(Repr))
      ensures lbs.len == old(lbs.len) + 1 && lbs.arr[old(lbs.len)] == c
        && forall j | 0 <= j < old(lbs.len) :: lbs.arr[j] == old(lbs.arr[j])
    {
      var more := Append(lbs, c);
      assert CellsOk(more, Repr + {more.arr});
      lbs := more;
      Repr := Repr + {lbs.arr};
    }

    method RemoveLB(i: nat)
      requires Valid() && i < lbs.len
      modifies Repr
      ensures Valid() && Repr == old(Repr)
      ensures View() == old(View()).(lbs := Transactions.RemoveAt(old(LBs()), i))
    {
      lbs := Delete(lbs, i);
      assert Valid();
      forall j | 0 <= j < lbs.len ensures LBAt(j) == old(LBs())[if j < i then j else j + 1] {
        if j < i {
          assert lbs.arr[j] == old(lbs.arr[j]);
        } else {
          assert lbs.arr[j] == old(lbs.arr[j + 1]);
        }
      }
      assert LBs() == Transactions.RemoveAt(old(LBs()), i);
    }

    method SetLabel(i: nat, text: string)
      requires Valid() && i < lbs.len
      modifies Repr
      ensures Valid() && Repr == old(Repr)
      ensures View() == old(View()).(lbs := old(LBs())[i := old(LBAt(i)).(labelText := text)])
    {
      lbs.arr[i] := lbs.arr[i].(labelText := text);
    }

    /** lb.Mappings[k] = nm, through the pointer into the slice. */
    method SetMapping(i: nat, k: nat, nm: Mapping)
      requires Valid() && i < lbs.len && k < lbs.arr[i].mappings.len
      modifies Repr
      ensures Valid() && Repr == old(Repr)
      ensures View() == old(View()).(lbs := Transactions.SetMappings(old(LBs()), i, old(LBAt(i)).mappings[k := nm]))
    {
      var ms := lbs.arr[i].mappings;
      ms.arr[k] := nm;
    }

    method AppendMapping(i: nat, nm: Mapping)
      requires Valid() && i < lbs.len
      modifies Repr
      ensures Valid() && fresh(Repr - old(Repr))
      ensures View() == old(View()).(lbs := Transactions.SetMappings(old(LBs()), i, old(LBAt(i)).mappings + [nm]))
    {
      var ms := Append(lbs.arr[i].mappings, nm);
      lbs.arr[i] := lbs.arr[i].(mappings := ms);
      Repr := Repr + {ms.arr};
    }

    method RemoveMapping(i: nat, k: nat)
      requires Valid() && i < lbs.len && k < lbs.arr[i].mappings.len
      modifies Repr
      ensures Valid() && Repr == old(Repr)
      ensures View() == old(View()).(
        lbs := Transactions.SetMappings(old(LBs()), i, Transactions.RemoveAt(old(LBAt(i)).mappings, k)))
    {
      var ms := Delete(lbs.arr[i].mappings, k);
      lbs.arr[i] := lbs.arr[i].(mappings := ms);
    }

    method AppendAlloc(a: PortAllocation)
      requires Valid()
      modifies Repr
      ensures Valid() && fresh(Repr - old(Repr))
      ensures View() == old(View()).(allocs := old(Elems(allocs)) + [a])
    {
      allocs := Append(allocs, a);
      Repr := Repr + {allocs.arr};
    }

    /** cand.PortAllocations = xs: a freshly made slice replaces the old one. */
    method SetAllocs(xs: seq<PortAllocation>)
      requires Valid()
      modifies this
      ensures Valid() && fresh(Repr - old(Repr))
      ensures View() == old(View()).(allocs := xs)
    {
      allocs := FromSeq(xs);
      Repr := Repr + {allocs.arr};
    }

    /** findLB and lbIndex. */
    method FindLB(name: string) returns (i: int)
      requires Valid()
      ensures i == Transactions.LBIndex(LBs(), name)
    {
      i := 0;
      while i < lbs.len
        invariant 0 <= i <= lbs.len
        invariant forall j | 0 <= j < i :: LBs()[j].name != name
      {
        assert LBs()[i] == LBAt(i);
        if lbs.arr[i].name == name {
          return;
        }
        i := i + 1;
      }
      i := -1;
    }

    method FindMapping(i: nat, port: int) returns (k: int)
      requires Valid() && i < lbs.len
      ensures k == Transactions.MappingIndex(LBAt(i).mappings, port)
    {
      var ms := lbs.arr[i].mappings;
      k := 0;
      while k < ms.len
        invariant 0 <= k <= ms.len
        invariant forall l | 0 <= l < k :: ms.arr[l].listenPort != port
      {
        if ms.arr[k].listenPort == port {
          return;
        }
        k := k + 1;
      }
      k := -1;
    }
  }

  /** The cell holds b. */
  ghost predicate Reads(c: Cell, b: LoadBalancer)
    reads c.mappings.arr
  {
    SliceOk(c.mappings) && LoadBalancer(c.name, c.labelText, c.createdAt, Elems(c.mappings)) == b
  }

  method CloneCell(c: Cell, ghost b: LoadBalancer) returns (d: Cell)
    requires Reads(c, b)
    ensures Reads(d, b) && (d.mappings.arr != null ==> fresh(d.mappings.arr))
  {
    d := c;
    if c.mappings.arr != null {
      var ms := CopyOf(c.mappings);
      d := c.(mappings := ms);
    }
  }

  /** out.LoadBalancers[i] = d, with a backing array no earlier element has. */
  method AddCell(cells: array<Cell>, i: nat, d: Cell, ghost made: set<object>, ghost lbs: seq<LoadBalancer>)
    requires i < cells.Length && i < |lbs| && CellsOk(Slice(cells, i), made) && Reads(d, lbs[i])
    requires d.mappings.arr != null ==> d.mappings.arr !in made
    requires forall j | 0 <= j < i :: Reads(cells[j], lbs[j])
    modifies cells
    ensures CellsOk(Slice(cells, i + 1), made + if d.mappings.arr == null then {} else {d.mappings.arr})
    ensures forall j | 0 <= j < i + 1 :: Reads(cells[j], lbs[j])
  {
    cells[i] := d;
  }

  method CloneCells(s: Slice<Cell>, ghost lbs: seq<LoadBalancer>) returns (r: Slice<Cell>, ghost made: set<object>)
    requires SliceOk(s) && s.arr != null && |lbs| == s.len && forall i | 0 <= i < s.len :: Reads(s.arr[i], lbs[i])
    ensures fresh(made) && r.len == s.len && r.arr != null && CellsOk(r, made)
    ensures forall j | 0 <= j < r.len :: Reads(r.arr[j], lbs[j])
  {
    var cells := new Cell[s.len];
    made := {cells};
    for i := 0 to s.len
      invariant fresh(made) && CellsOk(Slice(cells, i), made)
      invariant forall j | 0 <= j < i :: Reads(cells[j], lbs[j])
    {
      var d := CloneCell(s.arr[i], lbs[i]);
      AddCell(cells, i, d, made, lbs);
      made := made + if d.mappings.arr == null then {} else {d.mappings.arr};
    }
    r := Slice(cells, s.len);
  }

  /** The object a decoded state file becomes. */
  method Decode(st: State) returns (out: StateObj)
    ensures out.Valid() && fresh(out.Repr) && out.View() == st
  {
    var cells, parts := DecodeCells(st.lbs);
    var allocs := FromSeq(st.allocs);
    out := new StateObj.Of(st.version, cells, allocs, parts + {allocs.arr});
    assert forall i | 0 <= i < |st.lbs| :: out.LBAt(i) == st.lbs[i];
    assert out.LBs() == st.lbs;
  }

  method DecodeCells(lbs: seq<LoadBalancer>) returns (r: Slice<Cell>, ghost made: set<object>)
    ensures fresh(made) && r.len == |lbs| && CellsOk(r, made)
    ensures forall j | 0 <= j < |lbs| :: Reads(r.arr[j], lbs[j])
  {
    var cells := new Cell[|lbs|];
    made := {cells};
    for i := 0 to |lbs|
      invariant fresh(made) && CellsOk(Slice(cells, i), made)
      invariant forall j | 0 <= j < i :: Reads(cells[j], lbs[j])
    {
      var ms := FromSeq(lbs[i].mappings);
      AddCell(cells, i, Cell(lbs[i].name, lbs[i].labelText, lbs[i].createdAt, ms), made, lbs);
      made := made + {ms.arr};
    }
    r := Slice(cells, |lbs|);
  }

  /** make and copy. */
  method CopyOf<T(0)>(s: Slice<T>) returns (r: Slice<T>)
    requires SliceOk(s) && s.arr != null
    ensures SliceOk(r) && r.arr != null && fresh(r.arr) && Elems(r) == Elems(s)
  {
    var a := new T[s.len];
    for i := 0 to s.len
      invariant a[..i] == s.arr[..i]
    {
      a[i] := s.arr[i];
    }
    r := Slice(a, s.len);
  }
}
