/** Firmware version strings and the canonical form in which they are compared. */
module Versions {
  import opened Text

  /** One character of the canonical form: `_` becomes `-`, then letters become lower case. */
  function Canonical(c: char): char {
    if c == '_' then '-'
    else if 'A' <= c <= 'Z' then (c as int + 32) as char
    else c
  }

  function Normalize(version: string): (r: string) {
    var s := Strip(version);
    seq(|s|, i requires 0 <= i < |s| => Canonical(s[i]))
  }

  /** Two characters the server treats as the same in a version. */
  predicate SameChar(a: char, b: char) {
    || a == b
    || (a in {'_', '-'} && b in {'_', '-'})
    || ('A' <= a <= 'Z' && b as int == a as int + 32)
    || ('A' <= b <= 'Z' && a as int == b as int + 32)
  }

  lemma CanonicalDecides(a: char, b: char)
    ensures Canonical(a) == Canonical(b) <==> SameChar(a, b)
  {
  }

  /** Versions compare equal exactly when, outer blanks aside, they agree character by
      character up to case and up to `_` against `-`. */
  lemma NormalizeDecides(a: string, b: string)
    ensures Normalize(a) == Normalize(b) <==>
            (|Strip(a)| == |Strip(b)| &&
             forall i :: 0 <= i < |Strip(a)| ==> SameChar(Strip(a)[i], Strip(b)[i]))
  {
    var s, t := Strip(a), Strip(b);
    if Normalize(a) == Normalize(b) {
      forall i | 0 <= i < |s| ensures SameChar(s[i], t[i]) {
        assert Normalize(a)[i] == Canonical(s[i]) && Normalize(b)[i] == Canonical(t[i]);
        CanonicalDecides(s[i], t[i]);
      }
    } else if |s| == |t| {
      var i :| 0 <= i < |s| && Normalize(a)[i] != Normalize(b)[i];
      CanonicalDecides(s[i], t[i]);
    }
  }

  lemma CanonicalTwice(c: char)
    ensures Canonical(Canonical(c)) == Canonical(c) && IsSpace(Canonical(c)) == IsSpace(c)
  {
  }

  /** A canonical version is its own canonical form, so both sides may be normalized again. */
  lemma NormalizeIdempotent(version: string)
    ensures Normalize(Normalize(version)) == Normalize(version)
  {
    var s, n := Strip(version), Normalize(version);
    forall i | 0 <= i < |s| ensures n[i] == Canonical(s[i]) && Canonical(n[i]) == n[i] && IsSpace(n[i]) == IsSpace(s[i]) {
      CanonicalTwice(s[i]);
    }
    StripStable(n);
    var m := Normalize(n);
    assert |m| == |n| && forall i :: 0 <= i < |m| ==> m[i] == Canonical(n[i]);
  }
}
