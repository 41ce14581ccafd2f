/**
 * The few JavaScript string semantics the handlers and the client depend on:
 * truthiness of an optional string, the `||` default, the `\s` character
 * class, `trim()`, `length` (UTF-16 code units) and `split(sep)`.
 */
module Js {
  import opened Wrappers

  /** `!!v` for a value that is a string, `null` or `undefined`: only a non-empty string is truthy. */
  predicate Truthy(v: Option<string>)
    ensures Truthy(v) <==> v != None && v != Some("")
  {
    v.Some? && v.value != ""
  }

  /** `a || b` on optional strings. */
  function Or(a: Option<string>, b: Option<string>): (r: Option<string>)
    ensures Truthy(a) ==> r == a
    ensures !Truthy(a) ==> r == b
  {
    if Truthy(a) then a else b
  }

  /** `a || fallback` when the fallback is a literal string: the result is always truthy. */
  function OrElse(a: Option<string>, fallback: string): (r: string)
    requires fallback != ""
    ensures r != ""
    ensures Truthy(a) ==> r == a.value
  {
    if Truthy(a) then a.value else fallback
  }

  /** How a template literal renders a string that may be `null`. */
  function Render(v: Option<string>): string {
    match v
    case Some(s) => s
    case None => "null"
  }

  /** The characters of the ECMAScript `\s` class (WhiteSpace and LineTerminator), which `trim()` also strips. */
  predicate IsSpace(c: char) {
    c == ' ' || c == '\t' || c == '\n' || c == '\U{B}' || c == '\U{C}' || c == '\r'
    || c == '\U{A0}' || c == '\U{1680}' || ('\U{2000}' <= c <= '\U{200A}')
    || c == '\U{2028}' || c == '\U{2029}' || c == '\U{202F}' || c == '\U{205F}'
    || c == '\U{3000}' || c == '\U{FEFF}'
  }

  /** `s.trimStart()`: drops the leading whitespace and nothing else. */
  function TrimStart(s: string): (r: string)
    ensures |r| <= |s| && r == s[|s| - |r|..]
    ensures r == [] || !IsSpace(r[0])
    ensures forall k :: 0 <= k < |s| - |r| ==> IsSpace(s[k])
  {
    if s != [] && IsSpace(s[0]) then TrimStart(s[1..]) else s
  }

  /** `s.trimEnd()`: drops the trailing whitespace and nothing else. */
  function TrimEnd(s: string): (r: string)
    ensures |r| <= |s| && r == s[..|r|]
    ensures r == [] || !IsSpace(r[|r| - 1])
    ensures forall k :: |r| <= k < |s| ==> IsSpace(s[k])
  {
    if s != [] && IsSpace(s[|s| - 1]) then TrimEnd(s[..|s| - 1]) else s
  }

  /** `s[i..j]` is what is left of `s` once the whitespace at both ends is removed. */
  ghost predicate StripsTo(s: string, i: int, j: int) {
    && 0 <= i <= j <= |s|
    && (forall k :: 0 <= k < i ==> IsSpace(s[k]))
    && (forall k :: j <= k < |s| ==> IsSpace(s[k]))
    && (i < j ==> !IsSpace(s[i]) && !IsSpace(s[j - 1]))
  }

  /** `s.trim()`: the infix of `s` left after removing whitespace at both ends. */
  function Trim(s: string): (r: string)
    ensures exists i, j :: StripsTo(s, i, j) && r == s[i..j]
  {
    var t := TrimStart(s);
    var r := TrimEnd(t);
    var i := |s| - |t|;
    TrimStrips(s, i, t, r);
    assert StripsTo(s, i, i + |r|) && r == s[i..i + |r|];
    r
  }

  /** Whitespace dropped from the front of `s` to give `t`, then from the back of `t` to give `r`, leaves the infix `StripsTo` describes. */
  lemma TrimStrips(s: string, i: nat, t: string, r: string)
    requires i <= |s| && t == s[i..] && |r| <= |t| && r == t[..|r|]
    requires forall k :: 0 <= k < i ==> IsSpace(s[k])
    requires forall k :: |r| <= k < |t| ==> IsSpace(t[k])
    requires r == [] || (!IsSpace(r[0]) && !IsSpace(r[|r| - 1]))
    ensures StripsTo(s, i, i + |r|) && r == s[i..i + |r|]
  {
    forall k | i + |r| <= k < |s|
      ensures IsSpace(s[k])
    {
      assert s[k] == t[k - i];
    }
    if r != [] {
      assert s[i] == r[0];
      assert s[i + |r| - 1] == r[|r| - 1];
    }
  }

  /** Trimming twice is trimming once. */
  lemma TrimIdempotent(s: string)
    ensures Trim(Trim(s)) == Trim(s)
  {
    var r := Trim(s);
    if r != [] {
      assert TrimStart(r) == r;
      assert TrimEnd(r) == r;
    }
  }

  /** The number of UTF-16 code units of one character. */
  function CodeUnits(c: char): nat {
    if c as int > 0xFFFF then 2 else 1
  }

  /** `s.length` in JavaScript: UTF-16 code units, so a character outside the BMP counts twice. */
  function Utf16Length(s: string): (n: nat)
    ensures |s| <= n <= 2 * |s|
    ensures (forall k :: 0 <= k < |s| ==> s[k] as int <= 0xFFFF) ==> n == |s|
  {
    if s == [] then 0 else CodeUnits(s[0]) + Utf16Length(s[1..])
  }

  /** The first index of `c` in `s`, or `|s|` when there is none. */
  function IndexOf(s: string, c: char): (i: nat)
    ensures i <= |s|
    ensures i < |s| ==> s[i] == c
    ensures forall k :: 0 <= k < i ==> s[k] != c
  {
    if s == [] || s[0] == c then 0 else 1 + IndexOf(s[1..], c)
  }

  /** `s.split(c)` for a one-character separator: the fields between the occurrences of `c`. */
  function Split(s: string, c: char): (parts: seq<string>)
    ensures |parts| >= 1
    ensures forall k :: 0 <= k < |parts| ==> c !in parts[k]
    decreases |s|
  {
    var i := IndexOf(s, c);
    if i == |s| then [s] else [s[..i]] + Split(s[i + 1..], c)
  }

  /** `parts.join(c)`. */
  function Join(parts: seq<string>, c: char): string {
    if parts == [] then ""
    else if |parts| == 1 then parts[0]
    else parts[0] + [c] + Join(parts[1..], c)
  }

  /** Splitting loses nothing: joining the fields gives back the string. */
  lemma {:induction false} JoinSplit(s: string, c: char)
    ensures Join(Split(s, c), c) == s
    decreases |s|
  {
    var i := IndexOf(s, c);
    if i < |s| {
      JoinSplit(s[i + 1..], c);
      assert s == s[..i] + [c] + s[i + 1..];
    }
  }

  /** Joining fields that do not contain the separator and splitting again gives the fields back. */
  lemma {:induction false} SplitJoin(parts: seq<string>, c: char)
    requires |parts| >= 1
    requires forall k :: 0 <= k < |parts| ==> c !in parts[k]
    ensures Split(Join(parts, c), c) == parts
  {
    var s := Join(parts, c);
    if |parts| == 1 {
      assert IndexOf(s, c) == |s|;
    } else {
      var rest := Join(parts[1..], c);
      assert s == parts[0] + [c] + rest;
      var p := parts[0];
      assert IndexOf(s, c) == |p| by {
        assert forall k :: 0 <= k < |p| ==> s[k] == p[k];
        assert s[|p|] == c;
      }
      assert s[..|p|] == p;
      assert s[|p| + 1..] == rest;
      SplitJoin(parts[1..], c);
    }
  }

  /** `s.split(c)[k]`: `undefined` when there are not that many fields. */
  function Field(s: string, c: char, k: nat): (r: Option<string>)
    ensures r.Some? <==> k < |Split(s, c)|
    ensures r.Some? ==> r.value == Split(s, c)[k]
  {
    var parts := Split(s, c);
    if k < |parts| then Some(parts[k]) else None
  }

  /**
   * `f` is the second `c`-separated field of `s`: it starts just after the
   * first `c`, contains no `c`, and ends at the next `c` or at the end of `s`.
   */
  ghost predicate IsSecondField(s: string, c: char, f: string) {
    exists i :: 0 <= i < |s| && s[i] == c && c !in s[..i] && c !in f
                && i + 1 + |f| <= |s| && s[i + 1..i + 1 + |f|] == f
                && (i + 1 + |f| == |s| || s[i + 1 + |f|] == c)
  }

  /** `s.split(c)[1]` exists exactly when `s` contains `c`, and is then the second field. */
  lemma SecondField(s: string, c: char)
    ensures Field(s, c, 1).Some? <==> c in s
    ensures Field(s, c, 1).Some? ==> IsSecondField(s, c, Field(s, c, 1).value)
  {
    var i := IndexOf(s, c);
    if i < |s| {
      var tail := s[i + 1..];
      var j := IndexOf(tail, c);
      var f := tail[..j];
      assert Split(s, c) == [s[..i]] + Split(tail, c);
      assert Split(tail, c)[0] == f;
      assert Field(s, c, 1) == Some(f);
      assert s[i + 1..i + 1 + |f|] == f;
      if i + 1 + j < |s| {
        assert s[i + 1 + j] == tail[j];
      }
      assert c !in s[..i] by {
        forall k | 0 <= k < i ensures s[..i][k] != c {
        }
      }
      assert c !in f by {
        forall k | 0 <= k < j ensures f[k] != c {
        }
      }
    } else {
      assert c !in s by {
        forall k | 0 <= k < |s| ensures s[k] != c {
        }
      }
    }
  }

  /** `s.split(c)[0]`: the prefix of `s` before the first `c`. */
  function BeforeFirst(s: string, c: char): (r: string)
    ensures r == s[..IndexOf(s, c)]
    ensures c !in r
  {
    Split(s, c)[0]
  }

  predicate StartsWith(s: string, prefix: string) {
    |prefix| <= |s| && s[..|prefix|] == prefix
  }
}
