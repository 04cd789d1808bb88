/** The JavaScript string operations the storefront relies on, stated on
    `seq<char>`: `startsWith`, `indexOf`/`includes`, `split` with a string
    separator, `toLowerCase`, the `replace(/\s+/g, '-')` slug rewrite and the
    decimal rendering of integers used by template literals. */
module JsString {
  import opened Maybe

  /** `s.startsWith(p)` */
  predicate StartsWith(s: string, p: string) {
    |p| <= |s| && s[..|p|] == p
  }

  /** `s.indexOf(t)`: the first position at which `t` occurs in `s`. */
  function IndexOf(s: string, t: string): (r: Option<nat>)
    ensures r.Some? ==> r.value + |t| <= |s| && s[r.value..r.value + |t|] == t
    decreases |s|
  {
    if StartsWith(s, t) then Some(0)
    else if s == [] then None
    else match IndexOf(s[1..], t)
      case None => None
      case Some(i) => Some(i + 1)
  }

  /** `indexOf` finds the first occurrence: none starts before it, and when it
      finds nothing there is none at all. */
  lemma {:induction false} IndexOfFirst(s: string, t: string, j: nat)
    requires j <= |s|
    requires IndexOf(s, t).None? || j < IndexOf(s, t).value
    ensures !StartsWith(s[j..], t)
    decreases |s|
  {
    if StartsWith(s, t) {
    } else if s == [] {
    } else if j > 0 {
      IndexOfFirst(s[1..], t, j - 1);
      assert s[1..][j - 1..] == s[j..];
    }
  }

  /** `s.includes(t)`, which JavaScript defines as `indexOf(t) != -1`. */
  predicate Includes(s: string, t: string) {
    IndexOf(s, t).Some?
  }

  /** `s.split(sep)` for a non-empty separator: the pieces between
      successive non-overlapping occurrences of `sep`, scanning left to right. */
  function Split(s: string, sep: string): (r: seq<string>)
    requires |sep| > 0
    ensures |r| >= 1
    decreases |s|
  {
    match IndexOf(s, sep)
    case None => [s]
    case Some(i) => [s[..i]] + Split(s[i + |sep|..], sep)
  }

  /** `pieces.join(sep)` */
  function Join(pieces: seq<string>, sep: string): string {
    if |pieces| == 0 then ""
    else if |pieces| == 1 then pieces[0]
    else pieces[0] + sep + Join(pieces[1..], sep)
  }

  /** `s.split(sep)[k]`, which is `undefined` past the last piece. */
  function Piece(s: string, sep: string, k: nat): (r: Option<string>)
    requires |sep| > 0
    ensures r.Some? <==> k < |Split(s, sep)|
  {
    var ps := Split(s, sep);
    if k < |ps| then Some(ps[k]) else None
  }

  /** Joining the pieces of a split with the same separator gives back the
      string: `split` loses no text. */
  lemma {:induction false} JoinSplit(s: string, sep: string)
    requires |sep| > 0
    ensures Join(Split(s, sep), sep) == s
    decreases |s|
  {
    match IndexOf(s, sep)
    case None =>
    case Some(i) =>
      var rest := s[i + |sep|..];
      var tail := Split(rest, sep);
      JoinSplit(rest, sep);
      var ps := [s[..i]] + tail;
      assert Split(s, sep) == ps;
      assert ps[1..] == tail;
      assert Join(ps, sep) == s[..i] + sep + rest;
      assert s == s[..i] + s[i..i + |sep|] + rest;
  }

  /** No piece of a split contains the separator. */
  lemma {:induction false} SplitPiecesFree(s: string, sep: string, k: nat)
    requires |sep| > 0
    requires k < |Split(s, sep)|
    ensures !Includes(Split(s, sep)[k], sep)
    decreases |s|
  {
    match IndexOf(s, sep)
    case None =>
      assert Split(s, sep) == [s];
    case Some(i) =>
      var rest := s[i + |sep|..];
      assert Split(s, sep) == [s[..i]] + Split(rest, sep);
      if k == 0 {
        var p := s[..i];
        match IndexOf(p, sep)
        case None =>
        case Some(j) =>
          IndexOfFirst(s, sep, j);
          assert false;
      } else {
        SplitPiecesFree(rest, sep, k - 1);
      }
  }

  /** A string free of the separator splits into itself alone. */
  lemma SplitFree(s: string, sep: string)
    requires |sep| > 0 && !Includes(s, sep)
    ensures Split(s, sep) == [s]
  {
  }

  /** Splitting `sep + id`, where `id` does not contain `sep`, gives the empty
      text before the separator and then exactly `id`. */
  lemma SplitAfterPrefix(sep: string, id: string)
    requires |sep| > 0 && !Includes(id, sep)
    ensures Split(sep + id, sep) == ["", id]
  {
    var s := sep + id;
    assert StartsWith(s, sep);
    assert IndexOf(s, sep) == Some(0);
    assert s[|sep|..] == id;
    SplitFree(id, sep);
  }

  /** A one-character separator absent from `s` is not found in it. */
  lemma {:induction false} IndexOfAbsentChar(s: string, c: char)
    requires c !in s
    ensures IndexOf(s, [c]) == None
    decreases |s|
  {
    if s != [] {
      assert s[..1] == [s[0]];
      IndexOfAbsentChar(s[1..], c);
    }
  }

  /** The first occurrence of a one-character separator is where it is first
      written. */
  lemma {:induction false} IndexOfFirstChar(a: string, c: char, b: string)
    requires c !in a
    ensures IndexOf(a + [c] + b, [c]) == Some(|a|)
    decreases |a|
  {
    var s := a + [c] + b;
    if a == [] {
      assert s[..1] == [c];
    } else {
      assert s[..1] == [a[0]];
      assert s[1..] == a[1..] + [c] + b;
      IndexOfFirstChar(a[1..], c, b);
    }
  }

  /** Splitting on a character cuts at its first occurrence. */
  lemma SplitAtChar(a: string, c: char, b: string)
    requires c !in a
    ensures Split(a + [c] + b, [c]) == [a] + Split(b, [c])
  {
    var s := a + [c] + b;
    IndexOfFirstChar(a, c, b);
    assert s[..|a|] == a && s[|a| + 1..] == b;
  }

  /** A text without the separator character splits into itself alone. */
  lemma SplitNoChar(s: string, c: char)
    requires c !in s
    ensures Split(s, [c]) == [s]
  {
    IndexOfAbsentChar(s, c);
  }

  /** The first place a character is written in `s`. */
  lemma FirstChar(s: string, c: char) returns (k: nat)
    requires c in s
    ensures k < |s| && s[k] == c && c !in s[..k]
  {
    var i :| 0 <= i < |s| && s[i] == c;
    assert StartsWith(s[i..], [c]);
    if IndexOf(s, [c]).None? {
      IndexOfFirst(s, [c], i);
    }
    k := IndexOf(s, [c]).value;
    assert s[k..k + 1] == [c];
    forall j | 0 <= j < k ensures s[j] != c {
      IndexOfFirst(s, [c], j);
      assert s[j..][..1] == [s[j]];
    }
  }

  /** Splitting on a character at the last separator: the pieces of what
      stands before it, then the text after it. */
  lemma {:induction false} SplitLastChar(a: string, c: char, b: string)
    requires c !in b
    ensures Split(a + [c] + b, [c]) == Split(a, [c]) + [b]
    decreases |a|
  {
    if c !in a {
      SplitAtChar(a, c, b);
      SplitNoChar(b, c);
      SplitNoChar(a, c);
    } else {
      var k := FirstChar(a, c);
      var a1, a2 := a[..k], a[k + 1..];
      assert a == a1 + [c] + a2;
      assert a + [c] + b == a1 + [c] + (a2 + [c] + b);
      SplitAtChar(a1, c, a2 + [c] + b);
      SplitLastChar(a2, c, b);
      SplitAtChar(a1, c, a2);
    }
  }

  // ---------------------------------------------------------------------
  // Case folding and the category slug

  /** `toLowerCase` on one character, for ASCII and the Latin-1 letters
      (A-Z, and U+00C0..U+00DE except the multiplication sign U+00D7). */
  function LowerChar(c: char): char {
    if 'A' <= c <= 'Z' then (c as int + 32) as char
    else if 0xC0 <= c as int <= 0xDE && c as int != 0xD7 then (c as int + 32) as char
    else c
  }

  predicate IsUpper(c: char) {
    'A' <= c <= 'Z' || (0xC0 <= c as int <= 0xDE && c as int != 0xD7)
  }

  /** `s.toLowerCase()` */
  function ToLower(s: string): (r: string)
    ensures |r| == |s|
    ensures forall i :: 0 <= i < |s| ==> r[i] == LowerChar(s[i])
  {
    seq(|s|, i requires 0 <= i < |s| => LowerChar(s[i]))
  }

  /** Lower-casing never yields an upper-case letter, so it is idempotent. */
  lemma ToLowerIdempotent(s: string)
    ensures forall i :: 0 <= i < |s| ==> !IsUpper(ToLower(s)[i])
    ensures ToLower(ToLower(s)) == ToLower(s)
  {
  }

  /** The characters JavaScript's `\s` matches. */
  predicate IsSpace(c: char) {
    var n := c as int;
    n == 0x20 || 0x09 <= n <= 0x0D || n == 0xA0 || n == 0x1680
    || 0x2000 <= n <= 0x200A || n == 0x2028 || n == 0x2029
    || n == 0x202F || n == 0x205F || n == 0x3000 || n == 0xFEFF
  }

  /** Lower-casing maps white space to white space and nothing else to it. */
  lemma LowerCharSpace(c: char)
    ensures IsSpace(LowerChar(c)) == IsSpace(c)
  {
  }

  /** The text left after dropping a leading run of white space. */
  function DropSpaces(s: string): (r: string)
    ensures |r| <= |s|
    ensures r == [] || !IsSpace(r[0])
  {
    if s != [] && IsSpace(s[0]) then DropSpaces(s[1..]) else s
  }

  /** `s.replace(/\s+/g, '-')`: every maximal run of white space becomes a
      single `-`. */
  function DashSpaces(s: string): (r: string)
    decreases |s|
  {
    if s == [] then ""
    else if IsSpace(s[0]) then "-" + DashSpaces(DropSpaces(s))
    else [s[0]] + DashSpaces(s[1..])
  }

  predicate NoSpaces(s: string) {
    forall i :: 0 <= i < |s| ==> !IsSpace(s[i])
  }

  /** The category slug: `name.toLowerCase().replace(/\s+/g, '-')`. */
  function Slug(name: string): string {
    DashSpaces(ToLower(name))
  }

  /** The rewrite leaves no white space, and never lengthens the text. */
  lemma {:induction false} DashSpacesShape(s: string)
    ensures NoSpaces(DashSpaces(s))
    ensures |DashSpaces(s)| <= |s|
    decreases |s|
  {
    if s == [] {
    } else if IsSpace(s[0]) {
      DashSpacesShape(DropSpaces(s));
    } else {
      DashSpacesShape(s[1..]);
    }
  }

  /** Text without white space is left as it is. */
  lemma {:induction false} DashSpacesNoop(s: string)
    requires NoSpaces(s)
    ensures DashSpaces(s) == s
    decreases |s|
  {
    if s != [] {
      assert !IsSpace(s[0]);
      DashSpacesNoop(s[1..]);
    }
  }

  /** A slug holds no white space and no upper-case letter, is no longer than
      the name, and slugging it again changes nothing. */
  lemma SlugProperties(name: string)
    ensures NoSpaces(Slug(name))
    ensures |Slug(name)| <= |name|
    ensures forall i :: 0 <= i < |Slug(name)| ==> !IsUpper(Slug(name)[i])
    ensures Slug(Slug(name)) == Slug(name)
  {
    var low := ToLower(name);
    DashSpacesShape(low);
    ToLowerIdempotent(name);
    DashKeepsLower(low);
    var s := Slug(name);
    assert ToLower(s) == s by {
      forall i | 0 <= i < |s| ensures LowerChar(s[i]) == s[i] { }
    }
    DashSpacesNoop(s);
  }

  /** The rewrite only removes white space and inserts `-`, so it keeps a
      text free of upper-case letters free of them. */
  lemma {:induction false} DashKeepsLower(s: string)
    requires forall i :: 0 <= i < |s| ==> !IsUpper(s[i])
    ensures forall i :: 0 <= i < |DashSpaces(s)| ==> !IsUpper(DashSpaces(s)[i])
    decreases |s|
  {
    if s == [] {
    } else if IsSpace(s[0]) {
      DropSpacesSuffix(s);
      DashKeepsLower(DropSpaces(s));
    } else {
      DashKeepsLower(s[1..]);
    }
  }

  /** Dropping leading spaces leaves a suffix of the text. */
  lemma {:induction false} DropSpacesSuffix(s: string)
    ensures exists k :: 0 <= k <= |s| && DropSpaces(s) == s[k..]
  {
    if s != [] && IsSpace(s[0]) {
      DropSpacesSuffix(s[1..]);
      var k :| 0 <= k <= |s[1..]| && DropSpaces(s[1..]) == s[1..][k..];
      assert s[1..][k..] == s[k + 1..];
    } else {
      assert s == s[0..];
    }
  }

  // ---------------------------------------------------------------------
  // Integers as template literals render them

  function DigitChar(d: nat): char
    requires d < 10
  {
    ('0' as int + d) as char
  }

  function DigitValue(c: char): nat {
    if '0' <= c <= '9' then (c as int - '0' as int) as nat else 0
  }

  /** The decimal digits of a natural number, without leading zeros. */
  function NatToString(n: nat): (r: string)
    ensures |r| >= 1
    ensures forall i :: 0 <= i < |r| ==> '0' <= r[i] <= '9'
    decreases n
  {
    if n < 10 then [DigitChar(n)] else NatToString(n / 10) + [DigitChar(n % 10)]
  }

  /** The value of a string of decimal digits. */
  function DigitsValue(s: string): nat
    decreases |s|
  {
    if s == [] then 0 else DigitsValue(s[..|s| - 1]) * 10 + DigitValue(s[|s| - 1])
  }

  /** Reading the digits back gives the number: the rendering is lossless. */
  lemma {:induction false} NatToStringRoundTrip(n: nat)
    ensures DigitsValue(NatToString(n)) == n
    decreases n
  {
    if n >= 10 {
      var q, d := n / 10, n % 10;
      NatToStringRoundTrip(q);
      var s := NatToString(n);
      assert s == NatToString(q) + [DigitChar(d)];
      assert s[..|s| - 1] == NatToString(q);
      assert DigitValue(s[|s| - 1]) == d;
      assert q * 10 + d == n;
    }
  }

  /** `String(i)` for an integer: a `-` sign before the digits when negative. */
  function IntToString(i: int): (r: string)
    ensures |r| >= 1
  {
    if i < 0 then "-" + NatToString(-i) else NatToString(i)
  }

  /** Distinct integers render to distinct strings. */
  lemma IntToStringInjective(a: int, b: int)
    requires IntToString(a) == IntToString(b)
    ensures a == b
  {
    NegativeDigits(a);
    NegativeDigits(b);
    if a < 0 && b < 0 {
      assert NatToString(-a) == IntToString(a)[1..] == IntToString(b)[1..] == NatToString(-b);
      NatDigitsInjective(-a, -b);
    } else if a >= 0 && b >= 0 {
      assert NatToString(a) == IntToString(a) == IntToString(b) == NatToString(b);
      NatDigitsInjective(a, b);
    }
  }

  lemma NatDigitsInjective(a: nat, b: nat)
    requires NatToString(a) == NatToString(b)
    ensures a == b
  {
    NatToStringRoundTrip(a);
    NatToStringRoundTrip(b);
  }

  /** A negative number renders as `-` and then the digits of its magnitude;
      a non-negative one starts with a digit. */
  lemma NegativeDigits(i: int)
    ensures i < 0 ==> IntToString(i)[0] == '-' && IntToString(i)[1..] == NatToString(-i)
    ensures i >= 0 ==> '0' <= IntToString(i)[0] <= '9'
  {
  }
}
