// The script String API. Strings are NUL-terminated C strings; a Dafny
// string here is the character sequence before the terminator, so it never
// contains NUL. Characters are single units (the single-byte text format).
module ScriptString {
  import opened Wrappers

  const STD_BUFFER_SIZE: int := 3000
  const NUL: char := 0 as char

  type CString = s: string | forall i :: 0 <= i < |s| ==> s[i] != 0 as char

  /** ASCII lower-casing, as the case-insensitive comparisons apply it. */
  function LowerChar(c: char): (l: char)
    ensures 'A' <= c <= 'Z' ==> l as int == c as int + 32
    ensures !('A' <= c <= 'Z') ==> l == c
    ensures l != NUL <==> c != NUL
  {
    if 'A' <= c <= 'Z' then (c as int + 32) as char else c
  }

  function Lower(s: string): (l: string)
    ensures |l| == |s|
    ensures forall i :: 0 <= i < |s| ==> l[i] == LowerChar(s[i])
  {
    seq(|s|, i requires 0 <= i < |s| => LowerChar(s[i]))
  }

  /** String.IsNullOrEmpty: 1 for a null pointer or an empty string, else 0. */
  function IsNullOrEmpty(s: Option<CString>): (r: int)
    ensures r == 0 || r == 1
    ensures r == 1 <==> s.None? || |s.value| == 0
  {
    if s.None? || |s.value| == 0 then 1 else 0
  }

  /** String.Append: the first string followed by the second. */
  function Append(s: CString, extra: CString): (r: CString)
    ensures |r| == |s| + |extra|
    ensures r[..|s|] == s && r[|s|..] == extra
  {
    s + extra
  }

  /** String.ReplaceCharAt: the character at `index` replaced by the byte
      `newChar`; an index outside the string quits. A zero byte ends the
      string there. */
  function ReplaceCharAt(s: CString, index: int, newChar: int): (r: Result<CString>)
    ensures r.Err? <==> index < 0 || index >= |s|
    ensures r.Ok? && newChar % 256 != 0 ==>
      |r.value| == |s| && r.value[index] as int == newChar % 256 &&
      forall i :: 0 <= i < |s| && i != index ==> r.value[i] == s[i]
    ensures r.Ok? && newChar % 256 == 0 ==> r.value == s[..index]
  {
    if index < 0 || index >= |s| then Err("!String.ReplaceCharAt: index outside range of string")
    else
      var c := (newChar % 256) as char;
      var t: CString := if c == NUL then s[..index] else s[..index] + [c] + s[index + 1..];
      Ok(t)
  }

  /** String.Truncate: at most the first `length` characters. */
  function Truncate(s: CString, length: int): (r: Result<CString>)
    ensures r.Err? <==> length < 0
    ensures r.Ok? ==> |r.value| == if length < |s| then length else |s|
    ensures r.Ok? ==> r.value == s[..|r.value|]
  {
    if length < 0 then Err("!String.Truncate: invalid length")
    else if length >= |s| then Ok(s)
    else Ok(s[..length])
  }

  /** String.Substring: up to `length` characters starting at `index`. */
  function Substring(s: CString, index: int, length: int): (r: Result<CString>)
    ensures r.Err? <==> length < 0 || index < 0 || index > |s|
    ensures r.Ok? ==> |r.value| == if length < |s| - index then length else |s| - index
    ensures r.Ok? ==> forall i :: 0 <= i < |r.value| ==> r.value[i] == s[index + i]
  {
    if length < 0 then Err("!String.Substring: invalid length")
    else if index < 0 || index > |s| then Err("!String.Substring: invalid index")
    else
      var sublen := if length < |s| - index then length else |s| - index;
      Ok(s[index..index + sublen])
  }

  /** The sign of strcmp: the terminator compares below every character. */
  function StrCmp(a: string, b: string): (r: int)
    ensures r == -1 || r == 0 || r == 1
    ensures r == 0 <==> a == b
    ensures |a| == 0 && |b| > 0 ==> r == -1
  {
    if |a| == 0 && |b| == 0 then 0
    else if |a| == 0 then -1
    else if |b| == 0 then 1
    else if a[0] < b[0] then -1
    else if a[0] > b[0] then 1
    else
      var t := StrCmp(a[1..], b[1..]);
      assert t == 0 ==> a == [a[0]] + a[1..] == [b[0]] + b[1..] == b;
      assert a == b ==> a[1..] == b[1..];
      t
  }

  lemma {:induction false} StrCmpAntisymmetric(a: string, b: string)
    ensures StrCmp(a, b) == -StrCmp(b, a)
    decreases |a|
  {
    if |a| > 0 && |b| > 0 && a[0] == b[0] {
      StrCmpAntisymmetric(a[1..], b[1..]);
    }
  }

  /** String.CompareTo: the sign of the (optionally case-insensitive) comparison. */
  function CompareTo(s: CString, other: CString, caseSensitive: bool): (r: int)
    ensures r == -1 || r == 0 || r == 1
    ensures caseSensitive ==> (r == 0 <==> s == other)
    ensures !caseSensitive ==> (r == 0 <==> Lower(s) == Lower(other))
  {
    if caseSensitive then StrCmp(s, other) else StrCmp(Lower(s), Lower(other))
  }

  /** Whether `s` begins with `p`, exactly or ignoring ASCII case. */
  predicate PrefixMatch(s: string, p: string, caseSensitive: bool)
  {
    |p| <= |s| && (if caseSensitive then s[..|p|] == p else Lower(s[..|p|]) == Lower(p))
  }

  /** String.StartsWith: 1 iff the first strlen(check) characters match. */
  function StartsWith(s: CString, check: CString, caseSensitive: bool): (r: int)
    ensures r == 0 || r == 1
    ensures caseSensitive ==> (r == 1 <==> |check| <= |s| && s[..|check|] == check)
    ensures !caseSensitive ==> (r == 1 <==> |check| <= |s| && Lower(s[..|check|]) == Lower(check))
  {
    if PrefixMatch(s, check, caseSensitive) then 1 else 0
  }

  /** String.EndsWith: 0 when the suffix is longer, else compares the tail. */
  function EndsWith(s: CString, check: CString, caseSensitive: bool): (r: int)
    ensures r == 0 || r == 1
    ensures |check| > |s| ==> r == 0
    ensures caseSensitive ==> (r == 1 <==> |check| <= |s| && s[|s| - |check|..] == check)
    ensures !caseSensitive ==> (r == 1 <==> |check| <= |s| && Lower(s[|s| - |check|..]) == Lower(check))
  {
    if |check| > |s| then 0
    else if (if caseSensitive then s[|s| - |check|..] == check
             else Lower(s[|s| - |check|..]) == Lower(check)) then 1
    else 0
  }

  /** String.GetChars: the character code at `index`, 0 outside the string. */
  function GetChars(s: CString, index: int): (r: int)
    ensures 0 <= index < |s| ==> r == s[index] as int && r != 0
    ensures !(0 <= index < |s|) ==> r == 0
  {
    if index < 0 || index >= |s| then 0 else s[index] as int
  }

  /** Left-to-right, non-overlapping replacement of every occurrence. */
  function ReplaceSpec(s: string, find: string, repl: string, caseSensitive: bool): (r: string)
    requires |find| > 0
    decreases |s|
  {
    if |s| == 0 then []
    else if PrefixMatch(s, find, caseSensitive) then repl + ReplaceSpec(s[|find|..], find, repl, caseSensitive)
    else [s[0]] + ReplaceSpec(s[1..], find, repl, caseSensitive)
  }

  /** String.Replace: scans the string once, writing the replacement for each
      match and copying every other character into the result buffer. */
  method Replace(s: CString, find: CString, repl: CString, caseSensitive: bool) returns (r: string)
    requires |find| > 0
    requires |ReplaceSpec(s, find, repl, caseSensitive)| < STD_BUFFER_SIZE
    ensures r == ReplaceSpec(s, find, repl, caseSensitive)
  {
    ghost var whole := ReplaceSpec(s, find, repl, caseSensitive);
    var out: string := [];
    var ptr := 0;
    assert s[ptr..] == s;
    while ptr < |s|
      invariant 0 <= ptr <= |s|
      invariant out + ReplaceSpec(s[ptr..], find, repl, caseSensitive) == whole
    {
      var piece, next := ReplaceAt(s, ptr, find, repl, caseSensitive);
      assert (out + piece) + ReplaceSpec(s[next..], find, repl, caseSensitive) ==
        out + (piece + ReplaceSpec(s[next..], find, repl, caseSensitive));
      out := out + piece;
      ptr := next;
    }
    assert s[ptr..] == [];
    r := out;
  }

  /** One step of the scan at `ptr`: the replacement and a jump past the
      match, or the character there and a step of one. */
  method ReplaceAt(s: CString, ptr: nat, find: CString, repl: CString, caseSensitive: bool) returns (piece: string, next: nat)
    requires |find| > 0 && ptr < |s|
    ensures ptr < next <= |s|
    ensures piece + ReplaceSpec(s[next..], find, repl, caseSensitive) == ReplaceSpec(s[ptr..], find, repl, caseSensitive)
  {
    ReplaceStep(s, ptr, find, repl, caseSensitive);
    if PrefixMatch(s[ptr..], find, caseSensitive) {
      piece, next := repl, ptr + |find|;
    } else {
      piece, next := [s[ptr]], ptr + 1;
    }
  }

  lemma ReplaceStep(s: string, ptr: nat, find: string, repl: string, cs: bool)
    requires |find| > 0 && ptr < |s|
    ensures PrefixMatch(s[ptr..], find, cs) ==>
      ptr + |find| <= |s| &&
      ReplaceSpec(s[ptr..], find, repl, cs) == repl + ReplaceSpec(s[ptr + |find|..], find, repl, cs)
    ensures !PrefixMatch(s[ptr..], find, cs) ==>
      ReplaceSpec(s[ptr..], find, repl, cs) == [s[ptr]] + ReplaceSpec(s[ptr + 1..], find, repl, cs)
  {
    assert s[ptr..][1..] == s[ptr + 1..];
    if PrefixMatch(s[ptr..], find, cs) {
      assert s[ptr..][|find|..] == s[ptr + |find|..];
    }
  }

  /** Text with no occurrence of the search string comes back unchanged. */
  lemma {:induction false} ReplaceWithoutMatch(s: string, find: string, repl: string, cs: bool)
    requires |find| > 0
    requires forall i :: 0 <= i < |s| ==> !PrefixMatch(s[i..], find, cs)
    ensures ReplaceSpec(s, find, repl, cs) == s
    decreases |s|
  {
    if |s| > 0 {
      assert !PrefixMatch(s[0..], find, cs);
      assert s[0..] == s;
      forall i | 0 <= i < |s| - 1 ensures !PrefixMatch(s[1..][i..], find, cs) {
        assert s[1..][i..] == s[i + 1..];
      }
      ReplaceWithoutMatch(s[1..], find, repl, cs);
    }
  }

  /** Case-sensitive replacement of a text by itself is the identity. */
  lemma {:induction false} ReplaceBySelf(s: string, find: string)
    requires |find| > 0
    ensures ReplaceSpec(s, find, find, true) == s
    decreases |s|
  {
    if |s| > 0 {
      if PrefixMatch(s, find, true) {
        ReplaceBySelf(s[|find|..], find);
        assert s == s[..|find|] + s[|find|..];
      } else {
        ReplaceBySelf(s[1..], find);
        assert s == [s[0]] + s[1..];
      }
    }
  }

  /** Every character of the result comes from the input or the replacement. */
  lemma {:induction false} ReplaceCharsFrom(s: string, find: string, repl: string, cs: bool, k: nat)
    requires |find| > 0
    requires k < |ReplaceSpec(s, find, repl, cs)|
    ensures ReplaceSpec(s, find, repl, cs)[k] in s || ReplaceSpec(s, find, repl, cs)[k] in repl
    decreases |s|
  {
    var r := ReplaceSpec(s, find, repl, cs);
    if PrefixMatch(s, find, cs) {
      if k >= |repl| {
        ReplaceCharsFrom(s[|find|..], find, repl, cs, k - |repl|);
        var c := r[k];
        assert c in s[|find|..] ==> c in s;
      }
    } else if k > 0 {
      ReplaceCharsFrom(s[1..], find, repl, cs, k - 1);
      assert r[k] in s[1..] ==> r[k] in s;
    }
  }

  /** `sub` occurs in `s` starting at position j. */
  predicate OccursAt(s: string, sub: string, j: int)
  {
    0 <= j && j + |sub| <= |s| && s[j..j + |sub|] == sub
  }

  /** Position of the first occurrence of `sub` in `s`, or -1. */
  function FirstIndexOf(s: string, sub: string): (k: int)
    ensures -1 <= k <= |s|
    ensures k >= 0 ==> OccursAt(s, sub, k)
    ensures k >= 0 ==> forall j :: 0 <= j < k ==> !OccursAt(s, sub, j)
    ensures k == -1 ==> forall j :: !OccursAt(s, sub, j)
    decreases |s|
  {
    if |sub| > |s| then -1
    else if s[..|sub|] == sub then 0
    else
      var t := FirstIndexOf(s[1..], sub);
      assert forall j :: 1 <= j ==> (OccursAt(s, sub, j) <==> OccursAt(s[1..], sub, j - 1)) by {
        forall j | 1 <= j ensures OccursAt(s, sub, j) <==> OccursAt(s[1..], sub, j - 1) {
          if j + |sub| <= |s| {
            var a, b := s[j..j + |sub|], s[1..][j - 1..j - 1 + |sub|];
            assert |a| == |b|;
            forall t | 0 <= t < |a| ensures a[t] == b[t] { assert a[t] == s[j + t]; }
            assert a == b;
          }
        }
      }
      if t == -1 then -1 else t + 1
  }

  /** StrContains: index of the first case-insensitive occurrence, or -1. */
  function StrContains(s1: CString, s2: CString): (r: int)
    ensures -1 <= r <= |s1|
    ensures r >= 0 ==> OccursAt(Lower(s1), Lower(s2), r)
    ensures r >= 0 ==> forall j :: 0 <= j < r ==> !OccursAt(Lower(s1), Lower(s2), j)
    ensures r == -1 ==> forall j :: !OccursAt(Lower(s1), Lower(s2), j)
  {
    FirstIndexOf(Lower(s1), Lower(s2))
  }

  /** my_strncpy: copies the whole source when it is shorter than `len`,
      otherwise exactly `len` characters, and always writes the terminator.
      A negative `len`, read as unsigned, copies the whole source. */
  method MyStrncpy(dest: array<char>, src: CString, len: int)
    requires dest.Length > (if 0 <= len < |src| then len else |src|)
    modifies dest
    ensures var k := if 0 <= len < |src| then len else |src|;
      dest[..k] == src[..k] && dest[k] == NUL && dest[k + 1..] == old(dest[k + 1..])
  {
    var k := if 0 <= len < |src| then len else |src|;
    forall i | 0 <= i < k {
      dest[i] := src[i];
    }
    dest[k] := NUL;
  }
}
