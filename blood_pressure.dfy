/**
 * The blood-pressure pattern `^\d{2,3}\/\d{2,3}$` and its `test` method.
 * A pattern is a sequence of quantified atoms; matching is anchored at
 * both ends (without the `m` flag, `$` matches only at the end of input),
 * and `\d` is the ASCII digit class.
 */
module BloodPressurePattern {

  datatype Atom = AnyDigit | Literal(c: char)

  /** An atom repeated between `min` and `max` times, as `{min,max}` writes it. */
  datatype Term = Term(atom: Atom, min: nat, max: nat)

  /** `\d{2,3}`, then `\/`, then `\d{2,3}`. */
  const Pattern: seq<Term> := [Term(AnyDigit, 2, 3), Term(Literal('/'), 1, 1), Term(AnyDigit, 2, 3)]

  predicate IsAsciiDigit(c: char) {
    '0' <= c <= '9'
  }

  predicate AtomMatches(a: Atom, c: char) {
    match a
    case AnyDigit => IsAsciiDigit(c)
    case Literal(x) => c == x
  }

  predicate AllMatch(a: Atom, s: string) {
    forall i :: 0 <= i < |s| ==> AtomMatches(a, s[i])
  }

  /** Does the whole of `s` match the term sequence `p`? */
  predicate MatchesAll(p: seq<Term>, s: string)
    decreases |p|, if p == [] then 0 else p[0].max + 1
  {
    if p == [] then s == [] else MatchesRepeat(p[0].atom, p[0].min, p[0].max, p[1..], s)
  }

  /** Does `s` match `a` repeated at least `lo` and at most `hi` times, followed by `rest`? */
  predicate MatchesRepeat(a: Atom, lo: nat, hi: nat, rest: seq<Term>, s: string)
    decreases |rest| + 1, hi
  {
    || (lo == 0 && MatchesAll(rest, s))
    || (hi > 0 && s != [] && AtomMatches(a, s[0]) && MatchesRepeat(a, if lo > 0 then lo - 1 else 0, hi - 1, rest, s[1..]))
  }

  /** `bpRegex.test(s)`. */
  predicate Test(s: string) {
    MatchesAll(Pattern, s)
  }

  /** The reference definition: a slash at index 2 or 3, two or three digits after it, digits everywhere else. */
  predicate HasShape(s: string) {
    exists i :: 2 <= i <= 3 && i < |s| && s[i] == '/' && 2 <= |s| - i - 1 <= 3
      && AllMatch(AnyDigit, s[..i]) && AllMatch(AnyDigit, s[i + 1..])
  }

  /** A repetition that matches consumes a prefix of allowed length whose characters all match ... */
  lemma {:induction false} RepeatConsumes(a: Atom, lo: nat, hi: nat, rest: seq<Term>, s: string)
    requires MatchesRepeat(a, lo, hi, rest, s)
    ensures exists k :: lo <= k <= hi && k <= |s| && AllMatch(a, s[..k]) && MatchesAll(rest, s[k..])
    decreases hi
  {
    if lo == 0 && MatchesAll(rest, s) {
      assert s[..0] == [] && s[0..] == s;
      assert AllMatch(a, s[..0]) && MatchesAll(rest, s[0..]);
    } else {
      var lo' := if lo > 0 then lo - 1 else 0;
      RepeatConsumes(a, lo', hi - 1, rest, s[1..]);
      var k :| lo' <= k <= hi - 1 && k <= |s[1..]| && AllMatch(a, s[1..][..k]) && MatchesAll(rest, s[1..][k..]);
      assert s[..k + 1] == [s[0]] + s[1..][..k];
      assert s[k + 1..] == s[1..][k..];
      assert AllMatch(a, s[..k + 1]) && MatchesAll(rest, s[k + 1..]);
    }
  }

  /** ... and any such prefix followed by a match of the rest is a match. */
  lemma {:induction false} RepeatAccepts(a: Atom, lo: nat, hi: nat, rest: seq<Term>, s: string, k: nat)
    requires lo <= k <= hi && k <= |s| && AllMatch(a, s[..k]) && MatchesAll(rest, s[k..])
    ensures MatchesRepeat(a, lo, hi, rest, s)
    decreases hi
  {
    if k == 0 {
      assert s[0..] == s;
    } else {
      var lo' := if lo > 0 then lo - 1 else 0;
      assert s[..k][0] == s[0];
      assert s[1..][..k - 1] == s[1..k];
      assert s[1..][k - 1..] == s[k..];
      assert AllMatch(a, s[1..][..k - 1]);
      RepeatAccepts(a, lo', hi - 1, rest, s[1..], k - 1);
    }
  }

  /** A repetition consumes some prefix of allowed length whose characters all match. */
  lemma RepeatSplits(a: Atom, lo: nat, hi: nat, rest: seq<Term>, s: string)
    ensures MatchesRepeat(a, lo, hi, rest, s)
        <==> exists k :: lo <= k <= hi && k <= |s| && AllMatch(a, s[..k]) && MatchesAll(rest, s[k..])
  {
    if MatchesRepeat(a, lo, hi, rest, s) {
      RepeatConsumes(a, lo, hi, rest, s);
    }
    if exists k :: lo <= k <= hi && k <= |s| && AllMatch(a, s[..k]) && MatchesAll(rest, s[k..]) {
      var k :| lo <= k <= hi && k <= |s| && AllMatch(a, s[..k]) && MatchesAll(rest, s[k..]);
      RepeatAccepts(a, lo, hi, rest, s, k);
    }
  }

  /** The tail `\/\d{2,3}$` of the pattern. */
  lemma SlashThenDigits(t: string)
    ensures MatchesAll(Pattern[1..], t)
        <==> t != [] && t[0] == '/' && 2 <= |t| - 1 <= 3 && AllMatch(AnyDigit, t[1..])
  {
    var last := Pattern[2..];
    assert Pattern[1..][1..] == last && last[1..] == [];
    RepeatSplits(Literal('/'), 1, 1, last, t);
    if t != [] {
      RepeatSplits(AnyDigit, 2, 3, [], t[1..]);
      assert t[..1] == [t[0]];
      forall k | 2 <= k <= 3 && k <= |t[1..]| ensures MatchesAll([], t[1..][k..]) <==> k == |t[1..]| { }
      if 2 <= |t| - 1 <= 3 {
        assert t[1..][..|t| - 1] == t[1..];
        assert t[1..][|t| - 1..] == [];
      }
    }
  }

  /** The matcher agrees with the reference shape on every string. */
  lemma TestMeansShape(s: string)
    ensures Test(s) <==> HasShape(s)
  {
    assert Pattern[0] == Term(AnyDigit, 2, 3);
    RepeatSplits(AnyDigit, 2, 3, Pattern[1..], s);
    forall i | 2 <= i <= 3 && i <= |s|
      ensures MatchesAll(Pattern[1..], s[i..])
          <==> i < |s| && s[i] == '/' && 2 <= |s| - i - 1 <= 3 && AllMatch(AnyDigit, s[i + 1..])
    {
      SlashThenDigits(s[i..]);
      if i < |s| { assert s[i..][1..] == s[i + 1..]; }
    }
  }

  /** `120/80` passes ... */
  lemma AcceptsTypical()
    ensures Test("120/80")
  {
    TestMeansShape("120/80");
    assert "120/80"[..3] == "120" && "120/80"[4..] == "80";
  }

  /** ... and so does `999/000`: the numbers are not range-checked. */
  lemma AcceptsOutOfRange()
    ensures Test("999/000")
  {
    TestMeansShape("999/000");
    assert "999/000"[..3] == "999" && "999/000"[4..] == "000";
  }

  /** No slash: rejected. */
  lemma RejectsNoSlash()
    ensures !Test("12080")
  {
    TestMeansShape("12080");
  }

  /** A one-digit systolic value: rejected. */
  lemma RejectsShortSystolic()
    ensures !Test("1/80")
  {
    TestMeansShape("1/80");
  }

  /** A four-digit systolic value: rejected. */
  lemma RejectsLongSystolic()
    ensures !Test("1234/80")
  {
    TestMeansShape("1234/80");
  }

  /** A trailing space: rejected, as `$` is the end of the input. */
  lemma RejectsTrailingSpace()
    ensures !Test("120/80 ")
  {
    TestMeansShape("120/80 ");
    assert "120/80 "[4..] == "80 ";
  }

  /** The empty string: rejected. */
  lemma RejectsEmpty()
    ensures !Test("")
  {
    TestMeansShape("");
  }
}
