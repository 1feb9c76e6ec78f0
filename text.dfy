/**
 * The JavaScript string built-ins the prototype relies on, restricted to ASCII:
 * `trim`, `toLowerCase`, `includes`, `split` on one character and `join`.
 */
module Text {

  /** ASCII whitespace as `String.prototype.trim` removes it (space, tab, LF, VT, FF, CR). */
  predicate IsSpace(c: char) {
    c == ' ' || c == '\t' || c == '\n' || c == '\r' || c == '\U{B}' || c == '\U{C}'
  }

  /** `s.trim() === ""` */
  predicate IsBlank(s: string) {
    forall k :: 0 <= k < |s| ==> IsSpace(s[k])
  }

  /** `trimStart`: drops the whitespace at the front. */
  function TrimStart(s: string): string {
    if s == [] || !IsSpace(s[0]) then s else TrimStart(s[1..])
  }

  /** `trimEnd`: drops the whitespace at the back. */
  function TrimEnd(s: string): string {
    if s == [] || !IsSpace(s[|s| - 1]) then s else TrimEnd(s[..|s| - 1])
  }

  /** `trimStart` keeps a suffix that does not start with whitespace, and drops only whitespace. */
  lemma {:induction false} TrimStartSpec(s: string)
    ensures var r := TrimStart(s);
            && |r| <= |s| && r == s[|s| - |r|..]
            && (r == [] || !IsSpace(r[0]))
            && forall k :: 0 <= k < |s| - |r| ==> IsSpace(s[k])
  {
    if s != [] && IsSpace(s[0]) {
      var rest := s[1..];
      TrimStartSpec(rest);
      var r := TrimStart(rest);
      assert TrimStart(s) == r;
      assert rest[|rest| - |r|..] == s[|s| - |r|..];
      forall k | 0 <= k < |s| - |r| ensures IsSpace(s[k]) {
        if k > 0 {
          assert s[k] == rest[k - 1];
        }
      }
    }
  }

  /** `trimEnd` keeps a prefix that does not end with whitespace, and drops only whitespace. */
  lemma {:induction false} TrimEndSpec(s: string)
    ensures var r := TrimEnd(s);
            && |r| <= |s| && r == s[..|r|]
            && (r == [] || !IsSpace(r[|r| - 1]))
            && forall k :: |r| <= k < |s| ==> IsSpace(s[k])
  {
    if s != [] && IsSpace(s[|s| - 1]) {
      var init := s[..|s| - 1];
      TrimEndSpec(init);
      var r := TrimEnd(init);
      assert TrimEnd(s) == r;
      assert init[..|r|] == s[..|r|];
      forall k | |r| <= k < |s| ensures IsSpace(s[k]) {
        if k < |s| - 1 {
          assert s[k] == init[k];
        }
      }
    }
  }

  /** `s.trim()` */
  function Trim(s: string): string {
    TrimEnd(TrimStart(s))
  }

  /** Neither end of `s` is whitespace. */
  predicate Trimmed(s: string) {
    s == [] || (!IsSpace(s[0]) && !IsSpace(s[|s| - 1]))
  }

  /** `trimStart` empties a blank string. */
  lemma {:induction false} TrimStartBlank(s: string)
    requires IsBlank(s)
    ensures TrimStart(s) == []
  {
    if s != [] {
      TrimStartBlank(s[1..]);
    }
  }

  /** `trim` leaves neither end on whitespace. */
  lemma TrimEnds(s: string)
    ensures Trimmed(Trim(s))
  {
    var t := TrimStart(s);
    var r := TrimEnd(t);
    TrimStartSpec(s);
    TrimEndSpec(t);
    if r != [] {
      assert r[0] == t[0];
    }
  }

  /** Every character of `trim(s)` is a character of `s`. */
  lemma TrimAddsNothing(s: string)
    ensures forall c :: c in Trim(s) ==> c in s
  {
    var t := TrimStart(s);
    var r := TrimEnd(t);
    TrimStartSpec(s);
    TrimEndSpec(t);
    forall c | c in r ensures c in s {
      var k :| 0 <= k < |r| && r[k] == c;
      assert r[k] == t[k] == s[|s| - |t| + k];
    }
  }

  /** `trim` gives the empty string exactly for blank strings. */
  lemma TrimEmptyIffBlank(s: string)
    ensures Trim(s) == [] <==> IsBlank(s)
  {
    var t := TrimStart(s);
    var r := TrimEnd(t);
    TrimStartSpec(s);
    TrimEndSpec(t);
    if IsBlank(s) {
      TrimStartBlank(s);
    }
    if r == [] {
      assert |t| == 0;
      assert forall k :: 0 <= k < |s| ==> IsSpace(s[k]);
    }
  }

  /**
   * `trim(s)` is the slice of `s` that starts after the leading whitespace, and
   * only whitespace lies before and after it.
   */
  lemma TrimSlice(s: string)
    ensures var d := |s| - |TrimStart(s)|;
            && 0 <= d && d + |Trim(s)| <= |s|
            && Trim(s) == s[d..d + |Trim(s)|]
            && IsBlank(s[..d]) && IsBlank(s[d + |Trim(s)|..])
  {
    var t := TrimStart(s);
    var r := TrimEnd(t);
    TrimStartSpec(s);
    TrimEndSpec(t);
    var d := |s| - |t|;
    assert t == s[d..];
    assert r == s[d..d + |r|];
    assert s[d + |r|..] == t[|r|..];
  }

  /**
   * `trim` keeps one slice of `s` and drops only the whitespace around it, leaves
   * neither end on whitespace, and empties exactly the blank strings.
   */
  lemma TrimSpec(s: string)
    ensures Trimmed(Trim(s))
    ensures forall c :: c in Trim(s) ==> c in s
    ensures var d := |s| - |TrimStart(s)|;
            && 0 <= d && d + |Trim(s)| <= |s|
            && Trim(s) == s[d..d + |Trim(s)|]
            && IsBlank(s[..d]) && IsBlank(s[d + |Trim(s)|..])
    ensures Trim(s) == [] <==> IsBlank(s)
  {
    TrimEnds(s);
    TrimAddsNothing(s);
    TrimSlice(s);
    TrimEmptyIffBlank(s);
  }

  /** A string whose ends are not whitespace is its own trim. */
  lemma TrimFixesTrimmed(s: string)
    requires Trimmed(s)
    ensures Trim(s) == s
  {
    if s != [] {
      assert TrimStart(s) == s;
      assert TrimEnd(s) == s;
    }
  }

  /** Trimming twice is trimming once. */
  lemma TrimIdempotent(s: string)
    ensures Trim(Trim(s)) == Trim(s)
  {
    TrimSpec(s);
    TrimFixesTrimmed(Trim(s));
  }

  /** ASCII `toLowerCase` of one character. */
  function LowerChar(c: char): char {
    if 'A' <= c <= 'Z' then (c as int - 'A' as int + 'a' as int) as char else c
  }

  /** ASCII `toLowerCase`. */
  function Lower(s: string): (r: string)
    ensures |r| == |s|
    ensures forall k :: 0 <= k < |s| ==> r[k] == LowerChar(s[k])
  {
    seq(|s|, k requires 0 <= k < |s| => LowerChar(s[k]))
  }

  lemma LowerAppend(a: string, b: string)
    ensures Lower(a + b) == Lower(a) + Lower(b)
  {
    assert forall k :: 0 <= k < |a| + |b| ==> Lower(a + b)[k] == (Lower(a) + Lower(b))[k];
  }

  /** `s.includes(t)`: `t` occurs in `s` at some position; the empty string occurs everywhere. */
  function Contains(s: string, t: string): bool
    decreases |s|
  {
    if |t| > |s| then false else s[..|t|] == t || Contains(s[1..], t)
  }

  /** `t` occurs in `s` starting at position `i`. */
  predicate OccursAt(s: string, t: string, i: int) {
    0 <= i && i + |t| <= |s| && s[i..i + |t|] == t
  }

  /** `Contains` is "there is a position where `t` occurs". */
  lemma {:induction false} ContainsIff(s: string, t: string)
    ensures Contains(s, t) <==> exists i :: OccursAt(s, t, i)
    decreases |s|
  {
    if |t| > |s| {
    } else if s[..|t|] == t {
      assert OccursAt(s, t, 0);
    } else {
      var s' := s[1..];
      ContainsIff(s', t);
      if Contains(s', t) {
        var i :| OccursAt(s', t, i);
        assert OccursAt(s, t, i + 1);
      }
      if exists i :: OccursAt(s, t, i) {
        var i :| OccursAt(s, t, i);
        assert i != 0;
        assert OccursAt(s', t, i - 1);
      }
    }
  }

  /** An occurrence at a known position makes `Contains` true. */
  lemma ContainsAt(s: string, t: string, i: int)
    requires OccursAt(s, t, i)
    ensures Contains(s, t)
  {
    ContainsIff(s, t);
  }

  /** `s.split(d)` for a one-character separator: the pieces between occurrences of `d`. */
  function Split(s: string, d: char): (r: seq<string>)
    ensures |r| >= 1
  {
    if s == [] then [""]
    else if s[0] == d then [""] + Split(s[1..], d)
    else var t := Split(s[1..], d); [[s[0]] + t[0]] + t[1..]
  }

  /** Splitting and joining back with the separator gives the input. */
  lemma {:induction false} SplitJoin(s: string, d: char)
    ensures Join(Split(s, d), [d]) == s
  {
    if s != [] {
      SplitJoin(s[1..], d);
      var t := Split(s[1..], d);
      var r := Split(s, d);
      assert s == [s[0]] + s[1..];
      if s[0] == d {
        assert r == [""] + t;
        JoinCons("", t, [d]);
      } else {
        assert r == [[s[0]] + t[0]] + t[1..];
        if |t| == 1 {
          assert Join(r, [d]) == [s[0]] + t[0];
        } else {
          JoinCons(t[0], t[1..], [d]);
          JoinCons([s[0]] + t[0], t[1..], [d]);
          assert t == [t[0]] + t[1..];
        }
      }
    }
  }

  /** No piece of a split holds the separator. */
  lemma {:induction false} SplitPiecesAvoid(s: string, d: char)
    ensures forall p :: p in Split(s, d) ==> d !in p
  {
    if s != [] {
      SplitPiecesAvoid(s[1..], d);
      var t := Split(s[1..], d);
      if s[0] != d {
        assert t[0] in t;
        assert forall p :: p in Split(s, d) ==> p == [s[0]] + t[0] || p in t;
      }
    }
  }

  /** Joining a list with at least two pieces puts the separator after the first. */
  lemma JoinCons(first: string, rest: seq<string>, sep: string)
    requires rest != []
    ensures Join([first] + rest, sep) == first + sep + Join(rest, sep)
  {
    assert ([first] + rest)[1..] == rest;
  }

  /** What appending `c` does to a list of pieces. */
  function Extend(p: seq<string>, c: char, d: char): seq<string>
    requires |p| >= 1
  {
    if c == d then p + [""] else p[..|p| - 1] + [p[|p| - 1] + [c]]
  }

  /** Appending one character extends the last piece or, for the separator, opens a new one. */
  lemma {:induction false} SplitSnoc(s: string, c: char, d: char)
    ensures Split(s + [c], d) == Extend(Split(s, d), c, d)
  {
    if s == [] {
      assert s + [c] == [c];
      assert Split([c], d) == Extend([""], c, d) by {
        var e: string := [];
        assert Split(e, d) == [""];
        assert [c][1..] == e;
        if c != d {
          assert Split([c], d) == [[c] + ""] + [];
          assert [c] + "" == [c] == "" + [c];
        } else {
          assert Split([c], d) == [""] + [""];
        }
      }
    } else {
      var x, s', sc := s[0], s[1..], s + [c];
      assert sc[0] == x && sc[1..] == s' + [c];
      SplitSnoc(s', c, d);
      var q := Split(s', d);
      if x == d {
        assert Split(s, d) == [""] + q;
        assert Split(sc, d) == [""] + Extend(q, c, d);
      } else {
        assert Split(s, d) == [[x] + q[0]] + q[1..];
        var q' := Extend(q, c, d);
        assert Split(sc, d) == [[x] + q'[0]] + q'[1..];
        ExtendCons(x, q, c, d);
      }
    }
  }

  lemma ExtendCons(x: char, q: seq<string>, c: char, d: char)
    requires |q| >= 1
    ensures var q' := Extend(q, c, d);
            [[x] + q'[0]] + q'[1..] == Extend([[x] + q[0]] + q[1..], c, d)
  {
    if c != d && |q| == 1 {
      assert [x] + (q[0] + [c]) == ([x] + q[0]) + [c];
    }
  }

  /** A separator between two texts separates their pieces. */
  lemma {:induction false} SplitAppend(a: string, b: string, d: char)
    ensures Split(a + [d] + b, d) == Split(a, d) + Split(b, d)
  {
    if a == [] {
      assert [d] + b == a + [d] + b;
      assert ([d] + b)[1..] == b;
    } else {
      assert (a + [d] + b)[1..] == a[1..] + [d] + b;
      SplitAppend(a[1..], b, d);
    }
  }

  /** `parts.join(sep)` */
  function Join(parts: seq<string>, sep: string): string {
    if |parts| == 0 then ""
    else if |parts| == 1 then parts[0]
    else parts[0] + sep + Join(parts[1..], sep)
  }
}
