/** String helpers: `toLowerCase` restricted to ASCII, the whitespace class `\s`
    of JavaScript regular expressions, and the permission-id slug
    `name.toLowerCase().replace(/\s+/g, '_')`. */
module Text {

  predicate IsUpper(c: char) {
    'A' <= c <= 'Z'
  }

  /** The characters matched by `\s`: the ASCII blanks, the no-break and other Unicode
      space separators, the line and paragraph separators and the byte-order mark. */
  predicate IsSpace(c: char) {
    var n := c as int;
    || n == 0x20 || 0x09 <= n <= 0x0D
    || n == 0xA0 || n == 0x1680 || 0x2000 <= n <= 0x200A
    || n == 0x2028 || n == 0x2029 || n == 0x202F || n == 0x205F
    || n == 0x3000 || n == 0xFEFF
  }

  predicate NoUpper(s: string) {
    forall i :: 0 <= i < |s| ==> !IsUpper(s[i])
  }

  predicate NoSpace(s: string) {
    forall i :: 0 <= i < |s| ==> !IsSpace(s[i])
  }

  function LowerChar(c: char): (d: char)
    ensures !IsUpper(d)
    ensures IsUpper(c) ==> d as int == c as int + 32
    ensures !IsUpper(c) ==> d == c
  {
    if IsUpper(c) then (c as int + 32) as char else c
  }

  /** `toLowerCase` on ASCII letters; every other character is kept. */
  function ToLower(s: string): (r: string)
    ensures |r| == |s|
    ensures NoUpper(r)
    ensures forall i :: 0 <= i < |s| ==> r[i] == LowerChar(s[i])
  {
    seq(|s|, i requires 0 <= i < |s| => LowerChar(s[i]))
  }

  /** Lowercasing a string that has no capital letter leaves it as it is. */
  lemma ToLowerNoUpper(s: string)
    requires NoUpper(s)
    ensures ToLower(s) == s
  {
  }

  /** The longest suffix of `s` that does not start with whitespace. */
  function DropSpaces(s: string): (r: string)
    ensures |r| <= |s| && r == s[|s| - |r|..]
    ensures r == [] || !IsSpace(r[0])
  {
    if s != [] && IsSpace(s[0]) then DropSpaces(s[1..]) else s
  }

  /** Replaces every maximal run of whitespace by a single underscore. */
  function Collapse(s: string): (r: string)
    ensures NoSpace(r)
    ensures NoUpper(s) ==> NoUpper(r)
    decreases |s|
  {
    if s == [] then []
    else if IsSpace(s[0]) then
      var d := DropSpaces(s);
      assert NoUpper(s) ==> NoUpper(d) by {
        assert forall i :: 0 <= i < |d| ==> d[i] == s[|s| - |d| + i];
      }
      ['_'] + Collapse(d)
    else
      assert NoUpper(s) ==> NoUpper(s[1..]) by {
        assert forall i :: 0 <= i < |s| - 1 ==> s[1..][i] == s[i + 1];
      }
      [s[0]] + Collapse(s[1..])
  }

  /** The id a new permission receives from its name. */
  function Slug(name: string): (r: string)
    ensures NoSpace(r)
    ensures NoUpper(r)
  {
    Collapse(ToLower(name))
  }

  /** Where there is no whitespace, collapsing changes nothing. */
  lemma {:induction false} CollapseNoSpace(s: string)
    requires NoSpace(s)
    ensures Collapse(s) == s
  {
    if s != [] {
      assert NoSpace(s[1..]) by {
        forall i | 0 <= i < |s| - 1 ensures !IsSpace(s[1..][i]) { assert s[1..][i] == s[i + 1]; }
      }
      CollapseNoSpace(s[1..]);
    }
  }

  /** Dropping the leading whitespace of `a + t` stops inside `a` when `a` is not all whitespace. */
  lemma {:induction false} DropSpacesConcat(a: string, t: string)
    requires DropSpaces(a) != []
    ensures DropSpaces(a + t) == DropSpaces(a) + t
  {
    assert (a + t)[0] == a[0];
    if IsSpace(a[0]) {
      assert (a + t)[1..] == a[1..] + t;
      DropSpacesConcat(a[1..], t);
    }
  }

  /** A string that does not end in whitespace keeps its last character when its leading
      whitespace is dropped. */
  lemma {:induction false} DropSpacesKeepsLast(a: string)
    requires a != [] && !IsSpace(a[|a| - 1])
    ensures DropSpaces(a) != [] && DropSpaces(a)[|DropSpaces(a)| - 1] == a[|a| - 1]
  {
    if IsSpace(a[0]) {
      assert a[1..][|a| - 2] == a[|a| - 1];
      DropSpacesKeepsLast(a[1..]);
    }
  }

  /** A whitespace run followed by a non-whitespace character is dropped exactly. */
  lemma {:induction false} DropSpacesRun(w: string, b: string)
    requires forall i :: 0 <= i < |w| ==> IsSpace(w[i])
    requires b == [] || !IsSpace(b[0])
    ensures DropSpaces(w + b) == b
  {
    if w == [] {
      assert w + b == b;
    } else {
      assert (w + b)[1..] == w[1..] + b;
      DropSpacesRun(w[1..], b);
    }
  }

  /** Associativity of concatenation, as a named step: stating it inline in the proofs
      below makes them far more expensive for the verifier. */
  lemma Assoc(a: string, b: string, c: string)
    ensures a + (b + c) == a + b + c
  {
  }

  lemma Assoc4(a: string, b: string, c: string, d: string)
    ensures a + (b + c + d) == (a + b) + c + d
  {
  }

  /** One step of `Collapse`. */
  lemma CollapseUnfold(a: string)
    requires a != []
    ensures Collapse(a) == if IsSpace(a[0]) then ['_'] + Collapse(DropSpaces(a)) else [a[0]] + Collapse(a[1..])
  {
  }

  /** Collapsing a string that starts with a run of whitespace followed by `b`. */
  lemma CollapseAfterRun(w: string, b: string)
    requires |w| > 0 && forall i :: 0 <= i < |w| ==> IsSpace(w[i])
    requires b == [] || !IsSpace(b[0])
    ensures Collapse(w + b) == ['_'] + Collapse(b)
  {
    DropSpacesRun(w, b);
  }

  /** Collapsing a string that starts with a character other than whitespace. */
  lemma CollapsePlainHead(a: string, t: string)
    requires a != [] && !IsSpace(a[0])
    ensures Collapse(a + t) == [a[0]] + Collapse(a[1..] + t)
  {
    assert (a + t)[1..] == a[1..] + t;
  }

  /** Collapsing a string that starts with whitespace inside `a`. */
  lemma CollapseSpaceHead(a: string, t: string)
    requires a != [] && IsSpace(a[0]) && DropSpaces(a) != []
    ensures Collapse(a + t) == ['_'] + Collapse(DropSpaces(a) + t)
  {
    DropSpacesConcat(a, t);
  }

  /** Each maximal run `w` of whitespace, between `a` (not ending in whitespace) and `b`
      (not starting with it), becomes exactly one underscore; the two sides are collapsed
      independently. With `CollapseNoSpace` this determines `Collapse` on every string. */
  lemma {:induction false} CollapseRun(a: string, w: string, b: string)
    requires a == [] || !IsSpace(a[|a| - 1])
    requires |w| > 0 && forall i :: 0 <= i < |w| ==> IsSpace(w[i])
    requires b == [] || !IsSpace(b[0])
    ensures Collapse(a + w + b) == Collapse(a) + ['_'] + Collapse(b)
    decreases |a|, 1
  {
    if a == [] {
      assert a + w + b == w + b;
      CollapseAfterRun(w, b);
    } else if !IsSpace(a[0]) {
      CollapseRunPlain(a, w, b);
    } else {
      CollapseRunSpace(a, w, b);
    }
  }

  /** `CollapseRun` when `a` starts with a character other than whitespace. */
  lemma {:induction false} CollapseRunPlain(a: string, w: string, b: string)
    requires a != [] && !IsSpace(a[0]) && !IsSpace(a[|a| - 1])
    requires |w| > 0 && forall i :: 0 <= i < |w| ==> IsSpace(w[i])
    requires b == [] || !IsSpace(b[0])
    ensures Collapse(a + w + b) == Collapse(a) + ['_'] + Collapse(b)
    decreases |a|, 0
  {
    var t, x, y := w + b, Collapse(a[1..]), Collapse(b);
    calc {
      Collapse(a + w + b);
      { Assoc(a, w, b); }
      Collapse(a + t);
      { CollapsePlainHead(a, t); }
      [a[0]] + Collapse(a[1..] + t);
      { Assoc(a[1..], w, b); }
      [a[0]] + Collapse(a[1..] + w + b);
      { CollapseRun(a[1..], w, b); }
      [a[0]] + (x + ['_'] + y);
      { Assoc4([a[0]], x, ['_'], y); }
      ([a[0]] + x) + ['_'] + y;
      { CollapseUnfold(a); }
      Collapse(a) + ['_'] + y;
    }
  }

  /** `CollapseRun` when `a` starts with whitespace. */
  lemma {:induction false} CollapseRunSpace(a: string, w: string, b: string)
    requires a != [] && IsSpace(a[0]) && !IsSpace(a[|a| - 1])
    requires |w| > 0 && forall i :: 0 <= i < |w| ==> IsSpace(w[i])
    requires b == [] || !IsSpace(b[0])
    ensures Collapse(a + w + b) == Collapse(a) + ['_'] + Collapse(b)
    decreases |a|, 0
  {
    var d := DropSpaces(a);
    DropSpacesKeepsLast(a);
    var t, x, y := w + b, Collapse(d), Collapse(b);
    calc {
      Collapse(a + w + b);
      { Assoc(a, w, b); }
      Collapse(a + t);
      { CollapseSpaceHead(a, t); }
      ['_'] + Collapse(d + t);
      { Assoc(d, w, b); }
      ['_'] + Collapse(d + w + b);
      { CollapseRun(d, w, b); }
      ['_'] + (x + ['_'] + y);
      { Assoc4(['_'], x, ['_'], y); }
      (['_'] + x) + ['_'] + y;
      { CollapseUnfold(a); }
      Collapse(a) + ['_'] + y;
    }
  }

  /** Taking the slug of a slug gives it back. */
  lemma SlugIdempotent(name: string)
    ensures Slug(Slug(name)) == Slug(name)
  {
    var r := Slug(name);
    ToLowerNoUpper(r);
    CollapseNoSpace(r);
  }

  /** Two words separated by one space become the lowercased words joined by an underscore. */
  lemma SlugTwoWords(a: string, b: string)
    requires a != [] && b != [] && NoSpace(a) && NoSpace(b)
    ensures Slug(a + " " + b) == ToLower(a) + ['_'] + ToLower(b)
  {
    var la, lb := ToLower(a), ToLower(b);
    assert ToLower(a + " " + b) == la + " " + lb;
    assert NoSpace(la) && NoSpace(lb);
    CollapseRun(la, " ", lb);
    CollapseNoSpace(la);
    CollapseNoSpace(lb);
  }
}
