// The editor's in-memory patching of the engine's version resource: find
// the first occurrence of a byte pattern in a buffer and overwrite it in
// place with bytes of the same length, or fail when there is none.
module VersionResourcePatch {
  import opened Wrappers
  import opened CInt

  const NOT_FOUND: string := "Unable to find source string for replacement"
  /** The WCHAR buffer the search text is widened into. */
  const WIDE_BUFFER_CHARS: int := 100

  /** `pat` occurs in `data` starting at position i. */
  predicate OccursAt(data: seq<Byte>, pat: seq<Byte>, i: int)
  {
    0 <= i && i + |pat| <= |data| && data[i..i + |pat|] == pat
  }

  /** The first start position in [from, limit) where `pat` occurs. */
  function FirstMatchFrom(data: seq<Byte>, pat: seq<Byte>, from: nat, limit: int): (r: Option<nat>)
    ensures r.Some? ==> from <= r.value < limit && OccursAt(data, pat, r.value)
    ensures r.Some? ==> forall j :: from <= j < r.value ==> !OccursAt(data, pat, j)
    ensures r.None? ==> forall j :: from <= j < limit ==> !OccursAt(data, pat, j)
    decreases limit - from
  {
    if from >= limit then None
    else if OccursAt(data, pat, from) then Some(from)
    else FirstMatchFrom(data, pat, from + 1, limit)
  }

  function FirstMatchBelow(data: seq<Byte>, pat: seq<Byte>, limit: int): Option<nat>
  {
    FirstMatchFrom(data, pat, 0, limit)
  }

  /** `data` with the bytes at [at, at + |bytes|) replaced by `bytes`. */
  function Overwrite(data: seq<Byte>, at: nat, bytes: seq<Byte>): (r: seq<Byte>)
    requires at + |bytes| <= |data|
    ensures |r| == |data|
    ensures r[at..at + |bytes|] == bytes
    ensures forall k :: 0 <= k < |data| && !(at <= k < at + |bytes|) ==> r[k] == data[k]
  {
    data[..at] + bytes + data[at + |bytes|..]
  }

  /** The loop of FindAndUpdateMemory, trying start positions below `limit`:
      the first match is overwritten with the first |searchFor| bytes of
      `replaceWith`; without a match nothing changes. */
  method UpdateFirstMatchBelow(data: array<Byte>, searchFor: seq<Byte>, replaceWith: seq<Byte>, limit: int)
    returns (found: bool)
    requires |replaceWith| >= |searchFor|
    requires limit <= data.Length - |searchFor| + 1
    modifies data
    ensures var m := FirstMatchBelow(old(data[..]), searchFor, limit);
      found == m.Some? &&
      (found ==> data[..] == Overwrite(old(data[..]), m.value, replaceWith[..|searchFor|])) &&
      (!found ==> data[..] == old(data[..]))
  {
    var i := 0;
    while i < limit
      invariant 0 <= i && (limit >= 0 ==> i <= limit)
      invariant data[..] == old(data[..])
      invariant FirstMatchFrom(data[..], searchFor, i, limit) == FirstMatchBelow(data[..], searchFor, limit)
      decreases limit - i
    {
      if data[i..i + |searchFor|] == searchFor {
        ghost var before := data[..];
        assert OccursAt(before, searchFor, i);
        forall k | 0 <= k < |searchFor| {
          data[i + k] := replaceWith[k];
        }
        assert forall k :: 0 <= k < data.Length ==>
          data[k] == Overwrite(before, i, replaceWith[..|searchFor|])[k];
        return true;
      }
      i := i + 1;
    }
    return false;
  }

  /** FindAndUpdateMemory as written: the start positions tried are those
      below dataLen - searchForLen, so the last possible one is skipped. */
  method FindAndUpdateMemoryAsWritten(data: array<Byte>, searchFor: seq<Byte>, replaceWith: seq<Byte>)
    returns (error: Option<string>)
    requires |replaceWith| >= |searchFor|
    modifies data
    ensures var m := FirstMatchBelow(old(data[..]), searchFor, data.Length - |searchFor|);
      (error.None? <==> m.Some?) &&
      (m.Some? ==> data[..] == Overwrite(old(data[..]), m.value, replaceWith[..|searchFor|])) &&
      (m.None? ==> error == Some(NOT_FOUND) && data[..] == old(data[..]))
  {
    var found := UpdateFirstMatchBelow(data, searchFor, replaceWith, data.Length - |searchFor|);
    if !found {
      return Some(NOT_FOUND);
    }
    return None;
  }

  /** A buffer whose only occurrence of the pattern is at its very end: the
      loop as written never tries that position and reports no match. */
  lemma AsWrittenMissesOccurrenceAtEnd()
    ensures OccursAt([0x41, 0x42], [0x42], 1)
    ensures FirstMatchBelow([0x41, 0x42], [0x42], 2 - 1).None?
  {
    var data: seq<Byte> := [0x41, 0x42];
    assert data[0..1][0] == 0x41;
  }

  /** In general: when the only occurrence starts at dataLen - searchForLen,
      the bound as written finds nothing while the corrected bound finds it. */
  lemma {:induction false} AsWrittenMissesLastStart(data: seq<Byte>, pat: seq<Byte>)
    requires |pat| <= |data|
    requires OccursAt(data, pat, |data| - |pat|)
    requires forall j :: 0 <= j < |data| - |pat| ==> !OccursAt(data, pat, j)
    ensures FirstMatchBelow(data, pat, |data| - |pat|).None?
    ensures FirstMatchBelow(data, pat, |data| - |pat| + 1) == Some(|data| - |pat|)
  {
    LastStartFound(data, pat, 0);
  }

  lemma {:induction false} LastStartFound(data: seq<Byte>, pat: seq<Byte>, from: nat)
    requires |pat| <= |data| && from <= |data| - |pat|
    requires OccursAt(data, pat, |data| - |pat|)
    requires forall j :: from <= j < |data| - |pat| ==> !OccursAt(data, pat, j)
    ensures FirstMatchFrom(data, pat, from, |data| - |pat|).None?
    ensures FirstMatchFrom(data, pat, from, |data| - |pat| + 1) == Some(|data| - |pat|)
    decreases |data| - |pat| - from
  {
    if from < |data| - |pat| {
      LastStartFound(data, pat, from + 1);
    }
  }

  /** With the corrected bound every occurrence is reachable: no match is
      reported exactly when the pattern occurs nowhere in the buffer. */
  lemma CorrectedBoundSeesEveryStart(data: seq<Byte>, pat: seq<Byte>)
    ensures FirstMatchBelow(data, pat, |data| - |pat| + 1).None? <==> forall i :: !OccursAt(data, pat, i)
  {
    var m := FirstMatchBelow(data, pat, |data| - |pat| + 1);
    if m.None? {
      forall i
        ensures !OccursAt(data, pat, i)
      {
        if 0 <= i <= |data| - |pat| {
          assert 0 <= i < |data| - |pat| + 1;
        }
      }
    }
  }

  /** FindAndUpdateMemory with every start position tried (0 <= i <=
      dataLen - searchForLen): the first occurrence of searchFor is
      overwritten, every other byte is kept, and it fails, leaving the
      buffer as it was, exactly when searchFor occurs nowhere. */
  method FindAndUpdateMemory(data: array<Byte>, searchFor: seq<Byte>, replaceWith: seq<Byte>)
    returns (error: Option<string>)
    requires |replaceWith| >= |searchFor|
    modifies data
    ensures error.None? <==> exists i :: OccursAt(old(data[..]), searchFor, i)
    ensures error.Some? ==> error == Some(NOT_FOUND) && data[..] == old(data[..])
    ensures error.None? ==> exists k ::
      OccursAt(old(data[..]), searchFor, k) &&
      (forall j :: 0 <= j < k ==> !OccursAt(old(data[..]), searchFor, j)) &&
      data[..] == Overwrite(old(data[..]), k, replaceWith[..|searchFor|])
  {
    CorrectedBoundSeesEveryStart(data[..], searchFor);
    var found := UpdateFirstMatchBelow(data, searchFor, replaceWith, data.Length - |searchFor| + 1);
    if !found {
      return Some(NOT_FOUND);
    }
    return None;
  }

  /** The UTF-16LE widening of ASCII text: each character becomes its code
      followed by a zero byte. */
  function Widen(s: seq<Byte>): (w: seq<Byte>)
    ensures |w| == 2 * |s|
    ensures forall k :: 0 <= k < |s| ==> w[2 * k] == s[k] && w[2 * k + 1] == 0
  {
    if |s| == 0 then [] else [s[0], 0] + Widen(s[1..])
  }

  /** Taking every other byte undoes the widening. */
  function Narrow(w: seq<Byte>): (s: seq<Byte>)
    ensures |s| == |w| / 2
  {
    if |w| < 2 then [] else [w[0]] + Narrow(w[2..])
  }

  lemma {:induction false} NarrowWiden(s: seq<Byte>)
    ensures Narrow(Widen(s)) == s
  {
    if |s| > 0 {
      assert Widen(s)[2..] == Widen(s[1..]);
      NarrowWiden(s[1..]);
    }
  }

  /** Text the ANSI code page maps to the same UTF-16 code units. */
  predicate IsAsciiText(s: seq<Byte>)
  {
    forall k :: 0 <= k < |s| ==> 0 < s[k] < 128
  }

  /** ReplaceStringInMemory: the search text is widened to UTF-16 and the
      first occurrence of those 2·strlen bytes is overwritten with as many
      bytes of replaceWithData. It goes through the search as written, so
      only occurrences starting below memorySize - 2·strlen are found. */
  method ReplaceStringInMemory(memory: array<Byte>, searchFor: seq<Byte>, replaceWithData: seq<Byte>)
    returns (error: Option<string>)
    requires IsAsciiText(searchFor) && |searchFor| < WIDE_BUFFER_CHARS
    requires |replaceWithData| >= 2 * |searchFor|
    modifies memory
    ensures error.None? <==> exists i :: i < memory.Length - 2 * |searchFor| && OccursAt(old(memory[..]), Widen(searchFor), i)
    ensures error.Some? ==> error == Some(NOT_FOUND) && memory[..] == old(memory[..])
    ensures error.None? ==> exists k ::
      k < memory.Length - 2 * |searchFor| && OccursAt(old(memory[..]), Widen(searchFor), k) &&
      (forall j :: 0 <= j < k ==> !OccursAt(old(memory[..]), Widen(searchFor), j)) &&
      memory[..] == Overwrite(old(memory[..]), k, replaceWithData[..2 * |searchFor|])
  {
    var searchForUnicode := Widen(searchFor);
    assert replaceWithData[..|searchForUnicode|] == replaceWithData[..2 * |searchFor|];
    ghost var m := FirstMatchBelow(memory[..], searchForUnicode, memory.Length - |searchForUnicode|);
    error := FindAndUpdateMemoryAsWritten(memory, searchForUnicode, replaceWithData);
    if m.Some? {
      assert m.value < memory.Length - 2 * |searchFor| && OccursAt(old(memory[..]), Widen(searchFor), m.value);
    }
  }
}
