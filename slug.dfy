/**
 * The slug of a character name (script.js:101): lower-case it, drop every
 * "(" ... first ")" group, keep only [a-z0-9], '-' and JavaScript whitespace,
 * trim, and turn each run of whitespace into one '-'.
 */
module Slug {
  import opened Wrappers

  /** JavaScript `\s`, which is also the set `String.prototype.trim` removes. */
  predicate IsJsSpace(c: char) {
    c == ' ' || c == '\t' || c == '\n' || c == '\r' || c == '\U{000B}' || c == '\U{000C}'
    || c == '\U{00A0}' || c == '\U{1680}' || ('\U{2000}' <= c <= '\U{200A}')
    || c == '\U{2028}' || c == '\U{2029}' || c == '\U{202F}' || c == '\U{205F}'
    || c == '\U{3000}' || c == '\U{FEFF}'
  }

  /** The characters a regular-expression `.` does not match. */
  predicate IsLineTerminator(c: char) {
    c == '\n' || c == '\r' || c == '\U{2028}' || c == '\U{2029}'
  }

  /** The characters a slug is made of. */
  predicate IsSlugChar(c: char) {
    ('a' <= c <= 'z') || ('0' <= c <= '9') || c == '-'
  }

  /** The characters `/[^a-z0-9\s-]/g` leaves in place. */
  predicate IsKept(c: char) {
    IsSlugChar(c) || IsJsSpace(c)
  }

  predicate AllSlugChars(s: seq<char>) {
    forall i | 0 <= i < |s| :: IsSlugChar(s[i])
  }

  predicate NoSpace(s: seq<char>) {
    forall i | 0 <= i < |s| :: !IsJsSpace(s[i])
  }

  predicate AllSpace(s: seq<char>) {
    forall i | 0 <= i < |s| :: IsJsSpace(s[i])
  }

  lemma Associative(a: seq<char>, b: seq<char>, c: seq<char>)
    ensures a + (b + c) == (a + b) + c
  {
  }

  // ---------------------------------------------------------------- lower case

  /**
   * `toLowerCase` of one character. ASCII capitals map to ASCII; U+0130 and
   * U+212A are the only other capitals whose lower case holds ASCII letters.
   * Every other character is left as it is: its real lower case is removed by
   * the filter below exactly as the character itself is.
   */
  function LowerChar(c: char): seq<char> {
    if 'A' <= c <= 'Z' then [(c as int + 32) as char]
    else if c == '\U{0130}' then ['i', '\U{0307}']
    else if c == '\U{212A}' then ['k']
    else [c]
  }

  /**
   * `toLowerCase`: it never shortens the text, and only U+0130, whose lower
   * case is two characters, lengthens it.
   */
  function ToLower(s: seq<char>): (r: seq<char>)
    ensures |r| >= |s|
    ensures (forall i | 0 <= i < |s| :: s[i] != '\U{0130}') ==> |r| == |s|
  {
    if s == [] then [] else LowerChar(s[0]) + ToLower(s[1..])
  }

  /** `toLowerCase` leaves no ASCII capital behind. */
  lemma {:induction false} ToLowerHasNoCapital(s: seq<char>)
    ensures forall i | 0 <= i < |ToLower(s)| :: !('A' <= ToLower(s)[i] <= 'Z')
  {
    if s != [] {
      ToLowerHasNoCapital(s[1..]);
    }
  }

  lemma {:induction false} ToLowerAppend(a: seq<char>, b: seq<char>)
    ensures ToLower(a + b) == ToLower(a) + ToLower(b)
  {
    if a == [] {
      assert a + b == b;
    } else {
      assert (a + b)[1..] == a[1..] + b;
      ToLowerAppend(a[1..], b);
    }
  }

  lemma {:induction false} ToLowerOfSlug(s: seq<char>)
    requires AllSlugChars(s)
    ensures ToLower(s) == s
  {
    if s != [] {
      ToLowerOfSlug(s[1..]);
    }
  }

  // ---------------------------------------------------------- parenthetical groups

  /**
   * Where the lazy `\(.*?\)` ends when the "(" stands just before `s`: the
   * index of the first ")" in `s`, provided no line terminator comes first.
   */
  function CloseParen(s: seq<char>): (r: Option<nat>)
    ensures r.Some? ==> r.value < |s| && s[r.value] == ')'
    ensures r.Some? ==> forall k | 0 <= k < r.value :: s[k] != ')' && !IsLineTerminator(s[k])
    ensures r.None? ==> forall k | 0 <= k < |s| && s[k] == ')' :: exists j :: 0 <= j < k && IsLineTerminator(s[j])
  {
    if s == [] then None
    else if s[0] == ')' then Some(0)
    else if IsLineTerminator(s[0]) then None
    else
      match CloseParen(s[1..])
      case None =>
        assert forall k | 1 <= k < |s| && s[k] == ')' :: exists j :: 0 <= j < k && IsLineTerminator(s[j]) by {
          forall k | 1 <= k < |s| && s[k] == ')'
            ensures exists j :: 0 <= j < k && IsLineTerminator(s[j])
          {
            assert s[1..][k - 1] == ')';
            var j :| 0 <= j < k - 1 && IsLineTerminator(s[1..][j]);
            assert IsLineTerminator(s[j + 1]);
          }
        }
        None
      case Some(k) => Some(k + 1)
  }

  /** `replace(/\(.*?\)/g, "")`: each match is removed, scanning left to right. */
  function StripParens(s: seq<char>): (r: seq<char>)
    ensures |r| <= |s|

    decreases |s|
  {
    if s == [] then []
    else if s[0] == '(' && CloseParen(s[1..]).Some? then StripParens(s[CloseParen(s[1..]).value + 2..])
    else [s[0]] + StripParens(s[1..])
  }

  /** Removing groups adds no character: whatever is left was in the text. */
  lemma {:induction false} StripParensFromInput(s: seq<char>)
    ensures forall i | 0 <= i < |StripParens(s)| :: StripParens(s)[i] in s
    decreases |s|
  {
    if s != [] {
      if s[0] == '(' && CloseParen(s[1..]).Some? {
        var k := CloseParen(s[1..]).value + 2;
        StripParensFromInput(s[k..]);
        FromSuffix(s, k, StripParens(s[k..]));
      } else {
        StripParensFromInput(s[1..]);
        FromHeadAndTail(s, StripParens(s[1..]));
      }
    }
  }

  lemma FromSuffix(s: seq<char>, k: nat, r: seq<char>)
    requires k <= |s|
    requires forall i | 0 <= i < |r| :: r[i] in s[k..]
    ensures forall i | 0 <= i < |r| :: r[i] in s
  {
    forall i | 0 <= i < |r| ensures r[i] in s {
      var j :| 0 <= j < |s[k..]| && s[k..][j] == r[i];
      assert s[k + j] == r[i];
    }
  }

  lemma FromHeadAndTail(s: seq<char>, r: seq<char>)
    requires s != []
    requires forall i | 0 <= i < |r| :: r[i] in s[1..]
    ensures forall i | 0 <= i < |[s[0]] + r| :: ([s[0]] + r)[i] in s
  {
    FromSuffix(s, 1, r);
    var c := [s[0]] + r;
    forall i | 0 <= i < |c| ensures c[i] in s {
      if i > 0 {
        assert c[i] == r[i - 1];
      }
    }
  }

  /** Text with no ")" has no group to remove: every "(" in it stays. */
  lemma {:induction false} StripParensNoClose(s: seq<char>)
    requires forall i | 0 <= i < |s| :: s[i] != ')'
    ensures StripParens(s) == s
  {
    if s != [] {
      StripParensNoClose(s[1..]);
      assert forall i | 0 <= i < |s[1..]| :: s[1..][i] != ')';
      assert StripParens(s) == [s[0]] + s[1..];
    }
  }

  /** Text within one line that holds no ")". */
  predicate OpenLine(x: seq<char>) {
    forall k | 0 <= k < |x| :: x[k] != ')' && !IsLineTerminator(x[k])
  }

  lemma OpenLineTail(x: seq<char>)
    requires x != [] && OpenLine(x)
    ensures OpenLine(x[1..]) && x[0] != ')' && !IsLineTerminator(x[0])
  {
    assert forall k | 0 <= k < |x[1..]| :: x[1..][k] == x[k + 1];
  }

  /** A ")" that comes after a line terminator cannot close a "(" before it. */
  lemma {:induction false} CloseParenPastLine(x: seq<char>, t: char, rest: seq<char>)
    requires OpenLine(x) && IsLineTerminator(t)
    ensures CloseParen(x + [t] + rest).None?
  {
    if x != [] {
      OpenLineTail(x);
      assert (x + [t] + rest)[0] == x[0];
      assert (x + [t] + rest)[1..] == x[1..] + [t] + rest;
      CloseParenPastLine(x[1..], t, rest);
    }
  }

  /**
   * A line with no ")" in it is left as it is, its "(" included: the lazy
   * `\(.*?\)` cannot reach past the line terminator, so an unclosed "(" and
   * the text after it stay, and removal goes on after the line.
   */
  lemma {:induction false} UnclosedParenStays(x: seq<char>, t: char, rest: seq<char>)
    requires OpenLine(x) && IsLineTerminator(t)
    ensures StripParens(x + [t] + rest) == x + [t] + StripParens(rest)
  {
    if x == [] {
      assert x + [t] + rest == [t] + rest;
      StripParensHead(t, rest);
    } else {
      OpenLineTail(x);
      var tail := x[1..] + [t] + rest;
      var done := StripParens(rest);
      assert x + [t] + rest == [x[0]] + tail;
      CloseParenPastLine(x[1..], t, rest);
      UnclosedParenStays(x[1..], t, rest);
      StripParensHead(x[0], tail);
      ConsLine(x, t, done);
    }
  }

  lemma ConsLine(x: seq<char>, t: char, done: seq<char>)
    requires x != []
    ensures [x[0]] + (x[1..] + [t] + done) == x + [t] + done
  {
  }

  /** A character that does not open a closed group is kept. */
  lemma StripParensHead(c: char, tail: seq<char>)
    requires c != '(' || CloseParen(tail).None?
    ensures StripParens([c] + tail) == [c] + StripParens(tail)
  {
    assert ([c] + tail)[1..] == tail;
  }

  /** A group "(" m ")" whose middle holds no ")" and no line terminator is removed whole. */
  lemma StripGroup(m: seq<char>, rest: seq<char>)
    requires forall k | 0 <= k < |m| :: m[k] != ')' && !IsLineTerminator(m[k])
    ensures StripParens(['('] + m + [')'] + rest) == StripParens(rest)
  {
    var s := ['('] + m + [')'] + rest;
    CloseParenAt(m, rest);
    assert s[1..] == m + [')'] + rest;
    assert s[|m| + 2..] == rest;
  }

  lemma {:induction false} CloseParenAt(m: seq<char>, rest: seq<char>)
    requires forall k | 0 <= k < |m| :: m[k] != ')' && !IsLineTerminator(m[k])
    ensures CloseParen(m + [')'] + rest) == Some(|m|)
  {
    if m != [] {
      assert (m + [')'] + rest)[1..] == m[1..] + [')'] + rest;
      CloseParenAt(m[1..], rest);
    }
  }

  lemma {:induction false} StripParensNoOpen(s: seq<char>)
    requires forall i | 0 <= i < |s| :: s[i] != '('
    ensures StripParens(s) == s
  {
    if s != [] {
      StripParensNoOpen(s[1..]);
    }
  }

  /** Text before the first "(" passes through unchanged. */
  lemma {:induction false} StripParensPrefix(a: seq<char>, b: seq<char>)
    requires forall i | 0 <= i < |a| :: a[i] != '('
    ensures StripParens(a + b) == a + StripParens(b)
  {
    if a == [] {
      assert a + b == b;
    } else {
      assert (a + b)[0] == a[0];
      assert (a + b)[1..] == a[1..] + b;
      StripParensPrefix(a[1..], b);
      Associative([a[0]], a[1..], StripParens(b));
    }
  }

  // ------------------------------------------------------------------- filter

  /** `replace(/[^a-z0-9\s-]/g, "")`. */
  function KeepOnly(s: seq<char>): (r: seq<char>)
    ensures forall i | 0 <= i < |r| :: IsKept(r[i])
    ensures |r| <= |s|
  {
    if s == [] then []
    else if IsKept(s[0]) then [s[0]] + KeepOnly(s[1..])
    else KeepOnly(s[1..])
  }

  /** One character: kept exactly when it is in the class. */
  lemma KeepOnlyChar(c: char)
    ensures KeepOnly([c]) == if IsKept(c) then [c] else []
  {
    assert [c][1..] == [];
  }

  /** The filter works character by character: it distributes over concatenation, so the survivors keep their order. */
  lemma {:induction false} KeepOnlyAppend(a: seq<char>, b: seq<char>)
    ensures KeepOnly(a + b) == KeepOnly(a) + KeepOnly(b)
  {
    if a == [] {
      assert a + b == b;
    } else {
      assert (a + b)[0] == a[0];
      assert (a + b)[1..] == a[1..] + b;
      KeepOnlyAppend(a[1..], b);
      if IsKept(a[0]) {
        Associative([a[0]], KeepOnly(a[1..]), KeepOnly(b));
      }
    }
  }

  lemma {:induction false} KeepOnlyOfKept(s: seq<char>)
    requires forall i | 0 <= i < |s| :: IsKept(s[i])
    ensures KeepOnly(s) == s
  {
    if s != [] {
      KeepOnlyOfKept(s[1..]);
    }
  }

  // --------------------------------------------------------------------- trim

  /** Leading whitespace removed. */
  function TrimStart(s: seq<char>): (r: seq<char>)
    ensures |r| <= |s|
    ensures r == s[|s| - |r|..]
    ensures forall i | 0 <= i < |s| - |r| :: IsJsSpace(s[i])
    ensures r == [] || !IsJsSpace(r[0])
  {
    if s == [] || !IsJsSpace(s[0]) then s
    else
      var t := s[1..];
      var r := TrimStart(t);
      assert forall i | 1 <= i < |s| - |r| :: s[i] == t[i - 1];
      r
  }

  /** Trailing whitespace removed. */
  function TrimEnd(s: seq<char>): (r: seq<char>)
    ensures |r| <= |s|
    ensures forall i | 0 <= i < |r| :: r[i] == s[i]
    ensures forall i | |r| <= i < |s| :: IsJsSpace(s[i])
    ensures r == [] || !IsJsSpace(r[|r| - 1])
  {
    if s == [] || !IsJsSpace(s[|s| - 1]) then s else TrimEnd(s[..|s| - 1])
  }

  /** `trim()`: the longest middle part that neither starts nor ends with whitespace. */
  function Trim(s: seq<char>): (r: seq<char>)
    ensures |r| <= |s|
    ensures r == [] || (!IsJsSpace(r[0]) && !IsJsSpace(r[|r| - 1]))
    ensures r == [] ==> AllSpace(s)
  {
    var t := TrimStart(s);
    var r := TrimEnd(t);
    assert r != [] ==> r[0] == t[0];
    assert r == [] ==> AllSpace(s) by {
      if r == [] {
        assert t == [];
      }
    }
    r
  }

  // -------------------------------------------------------- whitespace runs

  /**
   * `replace(/\s+/g, "-")`: every maximal run of whitespace becomes one '-'.
   * Read left to right, a whitespace character followed by another is
   * dropped, and the last one of its run is written as '-'.
   */
  function CollapseSpace(s: seq<char>): (r: seq<char>)

  {
    if s == [] then []
    else if !IsJsSpace(s[0]) then [s[0]] + CollapseSpace(s[1..])
    else if |s| > 1 && IsJsSpace(s[1]) then CollapseSpace(s[1..])
    else ['-'] + CollapseSpace(s[1..])
  }

  /** Collapsing never lengthens the text. */
  lemma {:induction false} CollapseNoLonger(s: seq<char>)
    ensures |CollapseSpace(s)| <= |s|
  {
    if s != [] {
      CollapseNoLonger(s[1..]);
    }
  }

  /**
   * Collapsing leaves no whitespace and only ever writes '-' or a character
   * of its input.
   */
  lemma {:induction false} CollapseChars(s: seq<char>)
    ensures NoSpace(CollapseSpace(s))
    ensures forall i | 0 <= i < |CollapseSpace(s)| :: CollapseSpace(s)[i] == '-' || CollapseSpace(s)[i] in s
  {
    if s != [] {
      var t := s[1..];
      var r := CollapseSpace(t);
      CollapseChars(t);
      forall i | 0 <= i < |r| && r[i] != '-' ensures r[i] in s {
        var j :| 0 <= j < |t| && t[j] == r[i];
        assert s[j + 1] == r[i];
      }
    }
  }

  /** Collapsing distributes over a concatenation that does not join two runs. */
  lemma {:induction false} CollapseAppend(x: seq<char>, y: seq<char>)
    requires x == [] || y == [] || !IsJsSpace(x[|x| - 1]) || !IsJsSpace(y[0])
    ensures CollapseSpace(x + y) == CollapseSpace(x) + CollapseSpace(y)
  {
    if x == [] {
      assert x + y == y;
    } else {
      var xy := x + y;
      var t := x[1..];
      assert xy[0] == x[0] && xy[1..] == t + y;
      if |x| > 1 {
        assert xy[1] == x[1];
      }
      CollapseAppend(t, y);
      if !IsJsSpace(x[0]) || |x| == 1 {
        Associative(CollapseSpace(x)[..1], CollapseSpace(t), CollapseSpace(y));
      }
    }
  }

  /** A run of nothing but whitespace collapses to a single '-'. */
  lemma {:induction false} CollapseRun(w: seq<char>)
    requires w != [] && AllSpace(w)
    ensures CollapseSpace(w) == ['-']
  {
    if |w| > 1 {
      CollapseRun(w[1..]);
    }
  }

  /** A run of whitespace between two non-space neighbours becomes exactly one '-'. */
  lemma RunBecomesOneHyphen(x: seq<char>, w: seq<char>, y: seq<char>)
    requires x == [] || !IsJsSpace(x[|x| - 1])
    requires w != [] && AllSpace(w)
    requires y == [] || !IsJsSpace(y[0])
    ensures CollapseSpace(x + w + y) == CollapseSpace(x) + ['-'] + CollapseSpace(y)
  {
    var wy := w + y;
    assert wy[0] == w[0];
    CollapseAppend(w, y);
    CollapseRun(w);
    CollapseAppend(x, wy);
    Associative(x, w, y);
    Associative(CollapseSpace(x), ['-'], CollapseSpace(y));
  }

  lemma {:induction false} CollapseNoSpace(s: seq<char>)
    requires NoSpace(s)
    ensures CollapseSpace(s) == s
  {
    if s != [] {
      CollapseNoSpace(s[1..]);
    }
  }

  /** Collapsing keeps a non-space first and last character in place. */
  lemma CollapseEnds(s: seq<char>)
    requires s != [] && !IsJsSpace(s[0]) && !IsJsSpace(s[|s| - 1])
    ensures CollapseSpace(s) != []
    ensures CollapseSpace(s)[0] == s[0]
    ensures CollapseSpace(s)[|CollapseSpace(s)| - 1] == s[|s| - 1]
  {
    var init := s[..|s| - 1];
    var last := [s[|s| - 1]];
    assert s == init + last;
    CollapseAppend(init, last);
    assert CollapseSpace(last) == last by {
      assert CollapseSpace(last) == last + CollapseSpace([]);
    }
    var r := CollapseSpace(s);
    assert r == CollapseSpace(init) + last;
    assert r[|r| - 1] == s[|s| - 1];
    assert r[0] == s[0] by {
      assert r == [s[0]] + CollapseSpace(s[1..]);
    }
  }

  // --------------------------------------------------------------------- slug

  /** Trimming keeps a property every character has. */
  lemma TrimStartAt(s: seq<char>, i: nat)
    requires i < |TrimStart(s)|
    ensures TrimStart(s)[i] == s[|s| - |TrimStart(s)| + i]
  {
  }

  lemma TrimKeepsKept(k: seq<char>)
    requires forall i | 0 <= i < |k| :: IsKept(k[i])
    ensures forall i | 0 <= i < |Trim(k)| :: IsKept(Trim(k)[i])
  {
    var t := TrimStart(k);
    var r := TrimEnd(t);
    assert Trim(k) == r;
    forall i | 0 <= i < |r| ensures IsKept(r[i]) {
      TrimStartAt(k, i);
      assert r[i] == t[i];
    }
  }

  /** The text after every step but the whitespace collapse. */
  function Prepared(name: string): (r: string)
    ensures forall i | 0 <= i < |r| :: IsKept(r[i])
    ensures r == [] || (!IsJsSpace(r[0]) && !IsJsSpace(r[|r| - 1]))
  {
    var k := KeepOnly(StripParens(ToLower(name)));
    TrimKeepsKept(k);
    Trim(k)
  }

  /** script.js:101. */
  function Slugify(name: string): (r: string)
    ensures AllSlugChars(r)
  {
    var p := Prepared(name);
    var r := CollapseSpace(p);
    assert AllSlugChars(r) by {
      CollapseChars(p);
      forall i | 0 <= i < |r| ensures IsSlugChar(r[i]) {
        if r[i] != '-' {
          var j :| 0 <= j < |p| && p[j] == r[i];
        }
      }
    }
    r
  }

  /**
   * The ends of a slug are the ends of the trimmed text: a '-' made from
   * whitespace never stands first or last.
   */
  lemma SlugEnds(name: string)
    ensures Slugify(name) == [] <==> Prepared(name) == []
    ensures Slugify(name) != [] ==> Slugify(name)[0] == Prepared(name)[0]
    ensures Slugify(name) != [] ==>
      Slugify(name)[|Slugify(name)| - 1] == Prepared(name)[|Prepared(name)| - 1]
  {
    var p := Prepared(name);
    assert Slugify(name) == CollapseSpace(p);
    CollapseTrimmed(p);
  }

  /** Collapsing a text that does not start or end with whitespace keeps its ends, and its emptiness. */
  lemma CollapseTrimmed(p: seq<char>)
    requires p == [] || (!IsJsSpace(p[0]) && !IsJsSpace(p[|p| - 1]))
    ensures CollapseSpace(p) == [] <==> p == []
    ensures p != [] ==> CollapseSpace(p)[0] == p[0]
    ensures p != [] ==> CollapseSpace(p)[|CollapseSpace(p)| - 1] == p[|p| - 1]
  {
    if p != [] {
      CollapseEnds(p);
    }
  }

  lemma SlugCharNotSpace(c: char)
    requires IsSlugChar(c)
    ensures !IsJsSpace(c) && IsKept(c) && c != '('
  {
  }

  /** Once lower-cased text consists of slug characters, the slug is that text. */
  lemma SlugOfLowered(name: string)
    requires AllSlugChars(ToLower(name))
    ensures Slugify(name) == ToLower(name)
  {
    var s := ToLower(name);
    forall i | 0 <= i < |s| ensures !IsJsSpace(s[i]) && IsKept(s[i]) && s[i] != '(' {
      SlugCharNotSpace(s[i]);
    }
    StripParensNoOpen(s);
    KeepOnlyOfKept(s);
    assert TrimStart(s) == s;
    assert TrimEnd(s) == s;
    assert Prepared(name) == s;
    CollapseNoSpace(s);
  }

  predicate IsAsciiAlnum(c: char) {
    ('A' <= c <= 'Z') || ('a' <= c <= 'z') || ('0' <= c <= '9')
  }

  lemma {:induction false} ToLowerOfAlnum(s: string)
    requires forall i | 0 <= i < |s| :: IsAsciiAlnum(s[i])
    ensures |ToLower(s)| == |s| && AllSlugChars(ToLower(s))
  {
    if s != [] {
      ToLowerOfAlnum(s[1..]);
    }
  }

  /** A name of ASCII letters and digits slugs to its lower case. */
  lemma SlugOfAlnum(name: string)
    requires forall i | 0 <= i < |name| :: IsAsciiAlnum(name[i])
    ensures Slugify(name) == ToLower(name)
  {
    ToLowerOfAlnum(name);
    SlugOfLowered(name);
  }

  /** A capital followed by slug characters lower-cases to the small letter and the same tail. */
  lemma ToLowerCapitalised(c: char, rest: string)
    requires 'A' <= c <= 'Z' && AllSlugChars(rest)
    ensures ToLower([c] + rest) == [(c as int + 32) as char] + rest
  {
    assert ([c] + rest)[1..] == rest;
    ToLowerOfSlug(rest);
  }

  /** A capitalised word such as a character's name slugs to the word in lower case. */
  lemma SlugOfCapitalised(c: char, rest: string)
    requires 'A' <= c <= 'Z' && AllSlugChars(rest)
    ensures Slugify([c] + rest) == [(c as int + 32) as char] + rest
  {
    ToLowerCapitalised(c, rest);
    var lowered := [(c as int + 32) as char] + rest;
    assert AllSlugChars(lowered);
    SlugOfLowered([c] + rest);
  }

  /** A slug is its own slug. */
  lemma SlugOfSlug(s: string)
    requires AllSlugChars(s)
    ensures Slugify(s) == s
  {
    ToLowerOfSlug(s);
    SlugOfLowered(s);
  }

  lemma SlugifyIdempotent(name: string)
    ensures Slugify(Slugify(name)) == Slugify(name)
  {
    SlugOfSlug(Slugify(name));
  }

  /** `toLowerCase` adds no ")" and no line terminator. */
  lemma {:induction false} ToLowerKeepsGroupBody(m: seq<char>)
    requires forall k | 0 <= k < |m| :: m[k] != ')' && !IsLineTerminator(m[k])
    ensures forall k | 0 <= k < |ToLower(m)| :: ToLower(m)[k] != ')' && !IsLineTerminator(ToLower(m)[k])
  {
    if m != [] {
      ToLowerKeepsGroupBody(m[1..]);
    }
  }

  lemma TrimOneTrailingSpace(w: seq<char>)
    requires w != [] && NoSpace(w)
    ensures Trim(w + [' ']) == w
  {
    var t := w + [' '];
    assert t[0] == w[0];
    assert TrimStart(t) == t;
    assert t[..|t| - 1] == w;
    assert TrimEnd(w) == w;
  }

  lemma LowerWordAndGroup(w: string, m: string)
    ensures ToLower(w + " (" + m + ")") == ToLower(w) + " (" + ToLower(m) + ")"
  {
    ToLowerAppend(w + " (" + m, ")");
    ToLowerAppend(w + " (", m);
    ToLowerAppend(w, " (");
    LowerPunctuation();
  }

  lemma LowerPunctuation()
    ensures ToLower(" (") == " (" && ToLower(")") == ")"
  {
    assert " (" == [' '] + ['('];
    assert ToLower([' ']) == [' '];
    assert ToLower(['(']) == ['('];
    ToLowerAppend([' '], ['(']);
    assert ToLower([')']) == [')'];
  }

  lemma GroupShape(a: string, m: string)
    ensures a + " (" + m + ")" == (a + [' ']) + (['('] + m + [')'])
  {
    assert " (" == [' '] + ['('];
    Associative(a, [' '], ['(']);
    Associative(a + [' '], ['('], m);
    Associative(a + [' '], ['('] + m, [')']);
  }

  lemma StripWordAndGroup(lw: string, lm: string)
    requires AllSlugChars(lw)
    requires forall k | 0 <= k < |lm| :: lm[k] != ')' && !IsLineTerminator(lm[k])
    ensures StripParens(lw + " (" + lm + ")") == lw + " "
  {
    StripGroup(lm, []);
    assert ['('] + lm + [')'] + [] == ['('] + lm + [')'];
    assert StripParens([]) == [];
    var head := lw + [' '];
    forall i | 0 <= i < |head| ensures head[i] != '(' {
      if i < |lw| {
        SlugCharNotSpace(lw[i]);
      }
    }
    StripParensPrefix(head, ['('] + lm + [')']);
    GroupShape(lw, lm);
  }

  lemma PrepareWordAndSpace(lw: string)
    requires lw != [] && AllSlugChars(lw)
    ensures Trim(KeepOnly(lw + " ")) == lw
    ensures CollapseSpace(lw) == lw
  {
    var head := lw + [' '];
    forall i | 0 <= i < |lw| ensures !IsJsSpace(lw[i]) && IsKept(lw[i]) {
      SlugCharNotSpace(lw[i]);
    }
    assert forall i | 0 <= i < |head| :: IsKept(head[i]);
    KeepOnlyOfKept(head);
    TrimOneTrailingSpace(lw);
    CollapseNoSpace(lw);
  }

  /**
   * A name made of one word and a parenthetical after a space slugs to the
   * lower-cased word: the group goes, and so does the space before it.
   */
  lemma SlugDropsGroup(w: string, m: string)
    requires w != [] && forall i | 0 <= i < |w| :: IsAsciiAlnum(w[i])
    requires forall k | 0 <= k < |m| :: m[k] != ')' && !IsLineTerminator(m[k])
    ensures Slugify(w + " (" + m + ")") == ToLower(w)
  {
    ToLowerOfAlnum(w);
    ToLowerKeepsGroupBody(m);
    LowerWordAndGroup(w, m);
    StripWordAndGroup(ToLower(w), ToLower(m));
    PrepareWordAndSpace(ToLower(w));
  }
}
