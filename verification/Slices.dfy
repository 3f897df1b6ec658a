// Go slices: a header over a backing array that other headers may share.
module Slices {
  // `cells.Length` is the capacity.
  datatype Slice<!T> = Slice(cells: array<T>, len: nat)

  ghost predicate Proper<T>(s: Slice<T>) {
    s.len <= s.cells.Length
  }

  function Elements<T>(s: Slice<T>): seq<T>
    requires Proper(s)
    reads s.cells
  {
    s.cells[..s.len]
  }

  // append(s, xs...): in place when the capacity allows it, else into a new array
  // of some larger capacity. What headers no longer than s show is not touched.
  method Append<T>(s: Slice<T>, xs: seq<T>) returns (r: Slice<T>)
    requires Proper(s)
    modifies s.cells
    ensures Proper(r) && Elements(r) == old(Elements(s)) + xs
    ensures r.cells == s.cells || fresh(r.cells)
    ensures s.cells[..s.len] == old(s.cells[..s.len])
    ensures fresh(r.cells) ==> s.cells[..] == old(s.cells[..])
  {
    if s.len + |xs| <= s.cells.Length {
      for k := 0 to |xs|
        invariant s.cells[..s.len] == old(s.cells[..s.len])
        invariant s.cells[s.len..s.len + k] == xs[..k]
      {
        s.cells[s.len + k] := xs[k];
      }
      r := Slice(s.cells, s.len + |xs|);
      assert s.cells[..s.len + |xs|] == s.cells[..s.len] + s.cells[s.len..s.len + |xs|];
    } else {
      var all := s.cells[..s.len] + xs;
      var capacity: nat :| |all| <= capacity;
      var cells := new T[capacity](k requires 0 <= k => if k < |all| then all[k] else all[0]);
      r := Slice(cells, |all|);
      assert cells[..|all|] == all;
    }
  }

  // append([]T{}, s...): a slice of its own.
  method Copy<T>(s: Slice<T>) returns (r: Slice<T>)
    requires Proper(s)
    ensures Proper(r) && fresh(r.cells) && Elements(r) == Elements(s)
  {
    var all := s.cells[..s.len];
    var cells := new T[|all|](k requires 0 <= k < |all| => all[k]);
    r := Slice(cells, |all|);
    assert cells[..] == all;
  }
}
