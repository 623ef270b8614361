/** The register page's e-mail rule, the case-insensitive regular expression
    `^[A-Z0-9._%+-]+@[A-Z0-9.-]+\.[A-Z]{2,}$`, as a hand-written recogniser
    proved equal to the language the expression denotes. Without the
    unicode flag, case-insensitive matching folds ASCII letters only, so
    every class below is ASCII. */
module EmailPattern {
  import opened Common
  import Decimal

  predicate Letter(c: char)
  {
    'A' <= c <= 'Z' || 'a' <= c <= 'z'
  }

  /** `[A-Z0-9._%+-]` with the `i` flag. */
  predicate LocalChar(c: char)
  {
    Letter(c) || Decimal.IsDigit(c) || c == '.' || c == '_' || c == '%' || c == '+' || c == '-'
  }

  /** `[A-Z0-9.-]` with the `i` flag. */
  predicate DomainChar(c: char)
  {
    Letter(c) || Decimal.IsDigit(c) || c == '.' || c == '-'
  }

  /** `s` splits as local part, '@' at `at`, domain body, '.' at `dot`, and a
      top-level part of two or more letters running to the end. */
  predicate Shaped(s: string, at: int, dot: int)
  {
    && 0 < at && at + 1 < dot && dot + 2 < |s|
    && s[at] == '@' && s[dot] == '.'
    && (forall i :: 0 <= i < at ==> LocalChar(s[i]))
    && (forall i :: at < i < dot ==> DomainChar(s[i]))
    && (forall i :: dot < i < |s| ==> Letter(s[i]))
  }

  /** The language of the regular expression: some split fits. */
  ghost predicate InLanguage(s: string)
  {
    exists at: int, dot: int :: Shaped(s, at, dot)
  }

  /** The first index at or after `i` that does not hold a local-part character. */
  function LocalEnd(s: string, i: nat): (k: nat)
    requires i <= |s|
    ensures i <= k <= |s|
    ensures forall j :: i <= j < k ==> LocalChar(s[j])
    ensures k < |s| ==> !LocalChar(s[k])
    decreases |s| - i
  {
    if i == |s| || !LocalChar(s[i]) then i else LocalEnd(s, i + 1)
  }

  /** The last '.' in `s[lo..hi]`, if there is one. */
  function LastDot(s: string, lo: nat, hi: nat): (r: Option<nat>)
    requires lo <= hi <= |s|
    ensures r.Some? ==> lo <= r.value < hi && s[r.value] == '.'
    ensures r.Some? ==> forall j :: r.value < j < hi ==> s[j] != '.'
    ensures r.None? ==> forall j :: lo <= j < hi ==> s[j] != '.'
    decreases hi - lo
  {
    if hi == lo then None
    else if s[hi - 1] == '.' then Some(hi - 1)
    else LastDot(s, lo, hi - 1)
  }

  /** The recogniser: the local part ends at the first character outside its
      class, which must be '@'; the top-level part starts after the last '.'. */
  function Matches(s: string): bool
  {
    var at := LocalEnd(s, 0);
    if at == 0 || at == |s| || s[at] != '@' then false
    else
      match LastDot(s, at + 1, |s|)
      case None => false
      case Some(dot) =>
        && at + 1 < dot && dot + 2 < |s|
        && (forall i :: at < i < dot ==> DomainChar(s[i]))
        && (forall i :: dot < i < |s| ==> Letter(s[i]))
  }

  /** The recogniser accepts exactly the language of the expression. */
  lemma MatchesIffInLanguage(s: string)
    ensures Matches(s) <==> InLanguage(s)
  {
    var at := LocalEnd(s, 0);
    if Matches(s) {
      var dot := LastDot(s, at + 1, |s|).value;
      assert Shaped(s, at, dot);
    }
    if InLanguage(s) {
      var a: int, d: int :| Shaped(s, a, d);
      assert !LocalChar(s[a]);
      assert at == a;
      var last := LastDot(s, at + 1, |s|);
      assert last.Some? by {
        assert s[d] == '.';
      }
      assert last.value == d;
    }
  }

  /** Exactly one '@', since no class of the expression admits one. */
  lemma OneAt(s: string)
    requires Matches(s)
    ensures exists at :: 0 < at < |s| && s[at] == '@' && forall j :: 0 <= j < |s| && j != at ==> s[j] != '@'
  {
    var at := LocalEnd(s, 0);
    var dot := LastDot(s, at + 1, |s|).value;
    assert Shaped(s, at, dot);
    forall j | 0 <= j < |s| && j != at
      ensures s[j] != '@'
    {
      if j < at { assert LocalChar(s[j]); }
      else if j < dot { assert DomainChar(s[j]); }
      else if j > dot { assert Letter(s[j]); }
    }
  }

  /** Some concrete verdicts of the recogniser. */
  lemma Examples()
    ensures Matches("dr.ayse@clinic.com.tr")
    ensures !Matches("a@b.c")
    ensures !Matches("a@.co")
    ensures !Matches("@clinic.com")
    ensures !Matches("a@b@c.com")
  {
    assert Shaped("dr.ayse@clinic.com.tr", 7, 18);
    MatchesIffInLanguage("dr.ayse@clinic.com.tr");
    assert LocalEnd("a@b@c.com", 0) == 1;
    assert LastDot("a@b@c.com", 2, 9) == Some(5);
    assert !Letter("a@b@c.com"[3]);
  }
}
