/** The JavaScript string built-ins the core relies on: the `\s` class and
    `trim`, `includes`/`indexOf`, `replace` with a string pattern,
    `replace(/"/g, '')` and `toLowerCase`, stated over `seq<char>`. */
module Text {
  import opened Types

  /** The characters matched by `\s` and removed by `trim`: ECMAScript
      WhiteSpace and LineTerminator. */
  predicate IsSpace(c: char)
  {
    || c == ' ' || c == '\t' || c == '\n' || c == '\r' || c == '\U{B}' || c == '\U{C}'
    || c == '\U{A0}' || c == '\U{1680}' || ('\U{2000}' <= c <= '\U{200A}')
    || c == '\U{2028}' || c == '\U{2029}' || c == '\U{202F}' || c == '\U{205F}'
    || c == '\U{3000}' || c == '\U{FEFF}'
  }

  predicate AllSpace(s: string)
  {
    forall k | 0 <= k < |s| :: IsSpace(s[k])
  }

  /** Drops the leading run of spaces. */
  function TrimStart(s: string): (r: string)
    ensures |r| <= |s| && r == s[|s| - |r|..]
    ensures AllSpace(s[..|s| - |r|])
    ensures r == [] || !IsSpace(r[0])
  {
    if s != [] && IsSpace(s[0]) then
      var r := TrimStart(s[1..]);
      assert s[..|s| - |r|] == [s[0]] + s[1..][..|s| - 1 - |r|];
      r
    else
      s
  }

  /** Drops the trailing run of spaces. */
  function TrimEnd(s: string): (r: string)
    ensures |r| <= |s| && r == s[..|r|]
    ensures AllSpace(s[|r|..])
    ensures r == [] || !IsSpace(r[|r| - 1])
  {
    if s != [] && IsSpace(s[|s| - 1]) then
      var r := TrimEnd(s[..|s| - 1]);
      assert s[|r|..] == s[..|s| - 1][|r|..] + [s[|s| - 1]];
      r
    else
      s
  }

  /** `String.prototype.trim`. */
  function Trim(s: string): (r: string)
    ensures |r| <= |s|
    ensures r == [] || (!IsSpace(r[0]) && !IsSpace(r[|r| - 1]))
  {
    TrimEnd(TrimStart(s))
  }

  /** A string trims to the empty string exactly when it is all spaces: the
      `!x.trim()` guards reject exactly the blank inputs. */
  lemma TrimEmptyIffBlank(s: string)
    ensures Trim(s) == [] <==> AllSpace(s)
  {
    var t := TrimStart(s);
    if t == [] {
      assert s[..|s|] == s;
    } else {
      assert !IsSpace(s[|s| - |t|]);
    }
  }

  /** A string that neither starts nor ends with a space is its own trim. */
  lemma TrimOfTrimmed(s: string)
    requires s == [] || (!IsSpace(s[0]) && !IsSpace(s[|s| - 1]))
    ensures Trim(s) == s
  {
  }

  lemma TrimIdempotent(s: string)
    ensures Trim(Trim(s)) == Trim(s)
  {
    TrimOfTrimmed(Trim(s));
  }

  lemma {:induction false} TrimStartPadded(pad: string, x: string)
    requires AllSpace(pad) && (x == [] || !IsSpace(x[0]))
    ensures TrimStart(pad + x) == x
  {
    if pad != [] {
      assert (pad + x)[1..] == pad[1..] + x;
      TrimStartPadded(pad[1..], x);
    } else {
      assert pad + x == x;
    }
  }

  lemma {:induction false} TrimEndPadded(x: string, pad: string)
    requires AllSpace(pad) && (x == [] || !IsSpace(x[|x| - 1]))
    ensures TrimEnd(x + pad) == x
  {
    if pad != [] {
      assert (x + pad)[..|x + pad| - 1] == x + pad[..|pad| - 1];
      TrimEndPadded(x, pad[..|pad| - 1]);
    } else {
      assert x + pad == x;
    }
  }

  /** `trim` removes exactly the surrounding whitespace. */
  lemma TrimPadded(before: string, x: string, after: string)
    requires AllSpace(before) && AllSpace(after)
    requires x == [] || (!IsSpace(x[0]) && !IsSpace(x[|x| - 1]))
    ensures Trim(before + x + after) == x
  {
    if x == [] {
      assert before + x + after == before + after;
      assert AllSpace(before + after);
      TrimStartPadded(before + after, []);
      assert before + after + [] == before + after;
    } else {
      assert before + x + after == before + (x + after);
      TrimStartPadded(before, x + after);
      TrimEndPadded(x, after);
    }
  }

  /** `t` occurs in `s` at position `p`. */
  predicate OccursAt(s: string, t: string, p: nat)
  {
    p + |t| <= |s| && s[p..p + |t|] == t
  }

  /** `s.indexOf(t, from)`: the first position at or after `from` where `t`
      occurs. */
  function IndexOf(s: string, t: string, from: nat): (r: Option<nat>)
    requires from <= |s|
    ensures r.Some? ==> from <= r.value && OccursAt(s, t, r.value)
    decreases |s| - from
  {
    if from + |t| > |s| then None
    else if s[from..from + |t|] == t then Some(from)
    else if from == |s| then None
    else IndexOf(s, t, from + 1)
  }

  /** No occurrence lies between `from` and the position `indexOf` reports
      (or the end, when it reports none). */
  lemma {:induction false} IndexOfFirst(s: string, t: string, from: nat, p: nat)
    requires from <= |s| && from <= p
    requires IndexOf(s, t, from).Some? ==> p < IndexOf(s, t, from).value
    ensures !OccursAt(s, t, p)
    decreases |s| - from
  {
    if from + |t| <= |s| && s[from..from + |t|] != t && from < |s| && from < p {
      IndexOfFirst(s, t, from + 1, p);
    }
  }

  /** `s.includes(t)`. */
  predicate Contains(s: string, t: string)
  {
    IndexOf(s, t, 0).Some?
  }

  lemma ContainsIffOccurs(s: string, t: string)
    ensures Contains(s, t) <==> exists p :: OccursAt(s, t, p)
  {
    if exists p :: OccursAt(s, t, p) {
      var p :| OccursAt(s, t, p);
      if IndexOf(s, t, 0).None? {
        IndexOfFirst(s, t, 0, p);
      }
    }
  }

  /** A string that begins with `t` contains it, whatever follows. */
  lemma ContainsPrefix(t: string, rest: string)
    ensures Contains(t + rest, t)
  {
    assert OccursAt(t + rest, t, 0);
  }

  /** `s.replace(t, u)` with a string pattern: only the first occurrence is
      replaced. */
  function ReplaceFirst(s: string, t: string, u: string): (r: string)
  {
    match IndexOf(s, t, 0)
    case None => s
    case Some(p) => s[..p] + u + s[p + |t|..]
  }

  /** When the first occurrence of `t` is at `p`, `replace(t, '')` cuts out
      exactly s[p..p + |t|]. */
  lemma ReplaceFirstAt(s: string, t: string, p: nat)
    requires OccursAt(s, t, p)
    requires forall q: nat | q < p :: !OccursAt(s, t, q)
    ensures ReplaceFirst(s, t, "") == s[..p] + s[p + |t|..]
  {
    var r := IndexOf(s, t, 0);
    if r.None? || r.value > p {
      IndexOfFirst(s, t, 0, p);
    }
    assert r.Some? && r.value == p;
  }

  /** A regular-expression pattern character `p` under the `i` flag: for an ASCII capital the
      lower-case letter matches too (non-Unicode case folding never maps a
      non-ASCII character onto an ASCII letter). */
  predicate CharIs(c: char, p: char)
  {
    c == p || ('A' <= p <= 'Z' && c as int == p as int + 32)
  }

  /** `lit`, written in capitals, occurs case-insensitively in `s` at `i`. */
  predicate LiteralAt(s: string, i: nat, lit: string)
  {
    i + |lit| <= |s| && forall k | 0 <= k < |lit| :: CharIs(s[i + k], lit[k])
  }

  /** Position of the first `c` at or after `from`. */
  function FindChar(s: string, c: char, from: nat): (r: Option<nat>)
    requires from <= |s|
    ensures r.Some? ==> from <= r.value < |s| && s[r.value] == c
    ensures forall k | from <= k < (if r.Some? then r.value else |s|) :: s[k] != c
    decreases |s| - from
  {
    if from == |s| then None
    else if s[from] == c then Some(from)
    else FindChar(s, c, from + 1)
  }

  /** `s.replace(/c/g, '')`. */
  function RemoveAll(s: string, c: char): (r: string)
    ensures c !in r
    ensures |r| <= |s|
    ensures c !in s ==> r == s
  {
    if s == [] then []
    else (if s[0] == c then [] else [s[0]]) + RemoveAll(s[1..], c)
  }

  /** The removal works character by character, so the characters other
      than `c` stay in their order: it distributes over concatenation. */
  lemma {:induction false} RemoveAllAppend(a: string, b: string, c: char)
    ensures RemoveAll(a + b, c) == RemoveAll(a, c) + RemoveAll(b, c)
    decreases |a|
  {
    if a == [] {
      assert a + b == b;
    } else {
      var head := if a[0] == c then [] else [a[0]];
      var ab := a + b;
      assert ab[0] == a[0] && ab[1..] == a[1..] + b;
      RemoveAllAppend(a[1..], b, c);
      calc {
        RemoveAll(ab, c);
        head + RemoveAll(a[1..] + b, c);
        head + (RemoveAll(a[1..], c) + RemoveAll(b, c));
        (head + RemoveAll(a[1..], c)) + RemoveAll(b, c);
      }
    }
  }

  /** On one character the removal drops `c` and keeps anything else. */
  lemma RemoveAllOne(x: char, c: char)
    ensures RemoveAll([x], c) == (if x == c then [] else [x])
  {
    assert [x][1..] == [];
  }

  /** The lower-case image of one character, as far as it can matter to a
      search for an ASCII needle: ASCII capitals are lowered, U+0130 becomes
      'i' followed by a combining dot, the Kelvin sign becomes 'k'. Every
      other character is kept: its true lower case is not an ASCII letter,
      so keeping it changes no answer to `includes` of an ASCII needle. */
  function LowerChar(c: char): string
  {
    if 'A' <= c <= 'Z' then [(c as int + 32) as char]
    else if c == '\U{130}' then "i\U{307}"
    else if c == '\U{212A}' then "k"
    else [c]
  }

  /** `s.toLowerCase()` as seen by searches for ASCII needles. */
  function ToLower(s: string): (r: string)
    ensures |r| >= |s|
  {
    if s == [] then [] else LowerChar(s[0]) + ToLower(s[1..])
  }

  lemma {:induction false} ToLowerAppend(a: string, b: string)
    ensures ToLower(a + b) == ToLower(a) + ToLower(b)
  {
    if a != [] {
      assert (a + b)[1..] == a[1..] + b;
      ToLowerAppend(a[1..], b);
    } else {
      assert a + b == b;
    }
  }

  /** A string with no ASCII capital and no U+0130 or Kelvin sign lowers to
      itself. */
  lemma {:induction false} ToLowerOfLower(s: string)
    requires forall k | 0 <= k < |s| :: !('A' <= s[k] <= 'Z') && s[k] != '\U{130}' && s[k] != '\U{212A}'
    ensures ToLower(s) == s
  {
    if s != [] {
      ToLowerOfLower(s[1..]);
    }
  }

  lemma ToLowerCons(c: char, x: string)
    ensures ToLower([c] + x) == LowerChar(c) + ToLower(x)
  {
    assert ([c] + x)[1..] == x;
  }

  /** `trim` returns a piece of its input, so it adds no character. */
  lemma TrimIsSlice(s: string)
    ensures forall c | c in Trim(s) :: c in s
  {
    var a := TrimStart(s);
    var t := Trim(s);
    assert t == a[..|t|];
    assert t == s[|s| - |a|..|s| - |a| + |t|];
    forall c | c in t ensures c in s {
      var i :| 0 <= i < |t| && t[i] == c;
      assert s[|s| - |a| + i] == c;
    }
  }

  /** The decimal rendering of a number, as template literals produce it. */
  function NatToString(n: nat): (r: string)
    ensures |r| >= 1 && forall k | 0 <= k < |r| :: '0' <= r[k] <= '9'
  {
    if n < 10 then [('0' as int + n) as char]
    else NatToString(n / 10) + [('0' as int + n % 10) as char]
  }

  /** The number a string of decimal digits denotes, most significant
      digit first. */
  function DigitsValue(s: string): nat
    requires forall k | 0 <= k < |s| :: '0' <= s[k] <= '9'
  {
    if s == [] then 0
    else DigitsValue(s[..|s| - 1]) * 10 + (s[|s| - 1] as int - '0' as int)
  }

  /** The rendering denotes `n`, with no leading zero. */
  lemma {:induction false} NatToStringValue(n: nat)
    ensures DigitsValue(NatToString(n)) == n
    ensures |NatToString(n)| == 1 || NatToString(n)[0] != '0'
  {
    if n >= 10 {
      NatToStringValue(n / 10);
      var r := NatToString(n);
      assert r[..|r| - 1] == NatToString(n / 10);
    }
  }
}
