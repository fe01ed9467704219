/** Slices: views of arrays that may be shared. */
module Slices {

  /** A view of the first len elements of an array that others may view too. */
  datatype Slice<T> = Slice(backing: array<T>, len: nat) {
    ghost predicate Valid() {
      len <= backing.Length
    }

    ghost function Contents(): (s: seq<T>)
      requires Valid()
      reads backing
    {
      backing[..len]
    }
  }

  // A new array with the same first elements.
  method Regrow<T(0)>(s: Slice<T>, room: nat) returns (backing: array<T>)
    requires s.Valid() && s.len <= room
    ensures fresh(backing) && backing.Length == room && backing[..s.len] == s.Contents()
  {
    backing := new T[room];
    for i := 0 to s.len
      invariant backing[..i] == s.backing[..i]
    {
      backing[i] := s.backing[i];
    }
  }

  // Writes behind the slice, where there is room.
  method WriteBehind<T>(backing: array<T>, len: nat, more: seq<T>)
    requires len + |more| <= backing.Length
    modifies backing
    ensures backing[..len] == old(backing[..len]) && backing[..len + |more|] == old(backing[..len]) + more
  {
    for i := 0 to |more|
      invariant backing[..len + i] == old(backing[..len]) + more[..i]
    {
      backing[len + i] := more[i];
      assert backing[..len + i + 1] == backing[..len + i] + [more[i]];
    }
    assert backing[..len] == backing[..len + |more|][..len];
  }

  // Appends: in place when there is room behind the slice, and in a new array otherwise.
  method Append<T(0)>(s: Slice<T>, more: seq<T>) returns (r: Slice<T>)
    requires s.Valid()
    modifies s.backing
    ensures r.Valid() && r.len == s.len + |more| && r.Contents() == old(s.Contents()) + more
    ensures s.backing[..s.len] == old(s.backing[..s.len])
    ensures if s.len + |more| <= s.backing.Length then r.backing == s.backing
            else fresh(r.backing) && s.backing[..] == old(s.backing[..])
  {
    var backing := s.backing;
    if s.len + |more| > s.backing.Length {
      var room: nat :| s.len + |more| <= room;
      backing := Regrow(s, room);
    }
    WriteBehind(backing, s.len, more);
    r := Slice(backing, s.len + |more|);
  }

  // Appends to an empty slice: a copy that shares no array.
  method Copy<T(0)>(s: Slice<T>) returns (r: Slice<T>)
    requires s.Valid()
    ensures r.Valid() && fresh(r.backing) && r.Contents() == s.Contents()
  {
    var room: nat :| s.len <= room;
    var backing := Regrow(s, room);
    r := Slice(backing, s.len);
  }

  // What copying is for: of two appends to one slice with room behind it, the second writes over the first.
  method Clobber<T(0)>(s: Slice<T>, a: T, b: T) returns (first: Slice<T>, second: Slice<T>)
    requires s.Valid() && s.len < s.backing.Length
    modifies s.backing
    ensures first.Valid() && second.Valid()
    ensures first.Contents() == second.Contents() == old(s.Contents()) + [b]
  {
    first := Append(s, [a]);
    second := Append(s, [b]);
  }
}
