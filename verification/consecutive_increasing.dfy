/**
  Splitting a digit string into consecutive increasing numbers: whether `ch`
  is the concatenation of the decimal texts of `k, k+1, k+2, ...` (at least
  two of them), and which such list is found when the first-number lengths
  are tried shortest first.
 */
module ConsecutiveIncreasing {
  import opened Decimal

  // ---------------------------------------------------------------------
  // Reference definitions
  // ---------------------------------------------------------------------

  /** The run `start, start+1, ..., start+m-1`. */
  function Run(start: nat, m: nat): (r: seq<nat>)
    ensures |r| == m
    decreases m
  {
    if m == 0 then [] else [start] + Run(start + 1, m - 1)
  }

  /** The decimal texts of `xs` written back to back with no separator. */
  function Concat(xs: seq<nat>): (s: string)
    ensures IsDigits(s)
    ensures |s| >= |xs|
  {
    if |xs| == 0 then [] else NatToDecimal(xs[0]) + Concat(xs[1..])
  }

  /** Each element is exactly one greater than the one before it. */
  predicate IsConsecutive(xs: seq<nat>) {
    forall i :: 0 < i < |xs| ==> xs[i] == xs[i - 1] + 1
  }

  /** A consecutive increasing split of `ch`: at least two numbers, each one
      more than the previous, whose decimal texts concatenate to `ch`. */
  predicate IsSplit(ch: string, xs: seq<nat>) {
    |xs| >= 2 && IsConsecutive(xs) && Concat(xs) == ch
  }

  /** A first-number length the search tries: in `[1, |ch|-1]`, and not a
      prefix of two or more characters that starts with '0'. */
  predicate Admissible(ch: string, firstLen: nat) {
    1 <= firstLen < |ch| && !(firstLen > 1 && ch[0] == '0')
  }

  // ---------------------------------------------------------------------
  // The source's operations
  // ---------------------------------------------------------------------

  /** The text `t` occurs in `ch` starting at position `pos`; a `t` that
      would run past the end of `ch` does not occur there. */
  predicate MatchesAt(ch: string, pos: nat, t: string) {
    pos + |t| <= |ch| && ch[pos..pos + |t|] == t
  }

  /** The `while pos < len(ch)` loop of `validate_sequence`, from the state
      `(pos, current_num, count)`. */
  function ValidateFrom(ch: string, pos: nat, cur: nat, count: nat): (r: bool)
    requires pos <= |ch|
    ensures r ==> count + (|ch| - pos) >= 2
    decreases |ch| - pos
  {
    if pos < |ch| then
      var t := NatToDecimal(cur);
      if MatchesAt(ch, pos, t) then ValidateFrom(ch, pos + |t|, cur + 1, count + 1)
      else false
    else
      count >= 2
  }

  /** `validate_sequence(ch, start_num)`. */
  function ValidateSequence(ch: string, start: nat): (r: bool)
    ensures r ==> |ch| >= 2
  {
    ValidateFrom(ch, 0, start, 0)
  }

  /** The `while pos < len(ch)` loop of `get_sequence`, from the state
      `(pos, current_num, sequence)`. */
  function GetSequenceFrom(ch: string, pos: nat, cur: nat, acc: seq<nat>): seq<nat>
    requires pos <= |ch|
    decreases |ch| - pos
  {
    if pos < |ch| then
      var t := NatToDecimal(cur);
      if MatchesAt(ch, pos, t) then GetSequenceFrom(ch, pos + |t|, cur + 1, acc + [cur])
      else []
    else
      acc
  }

  /** `get_sequence(ch, start_num)`. */
  function GetSequence(ch: string, start: nat): seq<nat> {
    GetSequenceFrom(ch, 0, start, [])
  }

  /** The `for first_len in range(firstLen, n)` loop of
      `consecutive_increasing_numbers`. */
  function SearchFrom(ch: string, firstLen: nat): (r: bool)
    requires IsDigits(ch) && 1 <= firstLen
    ensures r ==> firstLen < |ch|
    decreases |ch| - firstLen
  {
    if firstLen >= |ch| then false
    else if firstLen > 1 && ch[0] == '0' then SearchFrom(ch, firstLen + 1)
    else if ValidateSequence(ch, DecimalValue(ch[..firstLen])) then true
    else SearchFrom(ch, firstLen + 1)
  }

  /** `consecutive_increasing_numbers(ch)`. */
  function ConsecutiveIncreasingNumbers(ch: string): (r: bool)
    requires IsDigits(ch)
    ensures |ch| <= 1 ==> !r
  {
    if |ch| == 0 then false else SearchFrom(ch, 1)
  }

  /** The `for first_len in range(firstLen, n)` loop of
      `consecutive_increasing_numbers_with_sequence`. */
  function SearchWithSequenceFrom(ch: string, firstLen: nat): (r: (bool, seq<nat>))
    requires IsDigits(ch) && 1 <= firstLen
    ensures r.0 <==> |r.1| >= 2
    ensures r.0 ==> firstLen < |ch|
    decreases |ch| - firstLen
  {
    if firstLen >= |ch| then (false, [])
    else if firstLen > 1 && ch[0] == '0' then SearchWithSequenceFrom(ch, firstLen + 1)
    else
      var sequence := GetSequence(ch, DecimalValue(ch[..firstLen]));
      if sequence != [] && |sequence| >= 2 then (true, sequence)
      else SearchWithSequenceFrom(ch, firstLen + 1)
  }

  /** `consecutive_increasing_numbers_with_sequence(ch)`. */
  function ConsecutiveIncreasingNumbersWithSequence(ch: string): (r: (bool, seq<nat>))
    requires IsDigits(ch)
    ensures |ch| == 0 ==> r == (false, [])
  {
    if |ch| == 0 then (false, []) else SearchWithSequenceFrom(ch, 1)
  }

  // ---------------------------------------------------------------------
  // Facts about runs and their concatenation
  // ---------------------------------------------------------------------

  /** The `i`-th element of the run from `start` is `start + i`. */
  lemma {:induction false} RunElement(start: nat, m: nat, i: nat)
    requires i < m
    ensures Run(start, m)[i] == start + i
    decreases i
  {
    if i > 0 {
      RunElement(start + 1, m - 1, i - 1);
    }
  }

  lemma ConcatRunStep(start: nat, m: nat)
    ensures Concat(Run(start, m + 1)) == NatToDecimal(start) + Concat(Run(start + 1, m))
  {
    assert Run(start, m + 1)[1..] == Run(start + 1, m);
  }

  /** A list is consecutive exactly when it is the run from its first element. */
  lemma ConsecutiveIsRun(xs: seq<nat>)
    requires |xs| >= 1
    ensures IsConsecutive(xs) <==> xs == Run(xs[0], |xs|)
  {
    var r := Run(xs[0], |xs|);
    if IsConsecutive(xs) {
      forall i | 0 <= i < |xs|
        ensures xs[i] == r[i]
      {
        ConsecutiveElement(xs, i);
        RunElement(xs[0], |xs|, i);
      }
      assert xs == r;
    }
    if xs == r {
      forall i | 0 < i < |xs|
        ensures xs[i] == xs[i - 1] + 1
      {
        RunElement(xs[0], |xs|, i);
        RunElement(xs[0], |xs|, i - 1);
      }
    }
  }

  lemma {:induction false} ConsecutiveElement(xs: seq<nat>, i: nat)
    requires IsConsecutive(xs) && i < |xs|
    ensures xs[i] == xs[0] + i
  {
    if i > 0 {
      ConsecutiveElement(xs, i - 1);
    }
  }

  /** A nonempty text splits into the run from `cur` exactly when `str(cur)`
      opens it and the rest splits into the run from `cur + 1`. */
  lemma RunSplitStep(s: string, cur: nat, m: nat)
    requires |s| > 0
    ensures Concat(Run(cur, m)) == s <==>
      (m >= 1 && MatchesAt(s, 0, NatToDecimal(cur))
       && Concat(Run(cur + 1, m - 1)) == s[|NatToDecimal(cur)|..])
  {
    var t := NatToDecimal(cur);
    if m >= 1 {
      ConcatRunStep(cur, m - 1);
      var rest := Concat(Run(cur + 1, m - 1));
      if Concat(Run(cur, m)) == s {
        assert s == t + rest;
        assert s[..|t|] == t;
        assert s[|t|..] == rest;
      }
      if MatchesAt(s, 0, t) && rest == s[|t|..] {
        assert s == s[..|t|] + s[|t|..];
      }
    }
  }

  // ---------------------------------------------------------------------
  // The greedy walks against the reference
  // ---------------------------------------------------------------------

  /** Matching at `pos` of `ch` is matching at the start of `ch[pos..]`. */
  lemma MatchesAtSuffix(ch: string, pos: nat, t: string)
    requires pos <= |ch|
    ensures MatchesAt(ch[pos..], 0, t) <==> MatchesAt(ch, pos, t)
  {
    if pos + |t| <= |ch| {
      assert ch[pos..][0..|t|] == ch[pos..pos + |t|];
    }
  }

  /** Regroupings of the collected list, stated apart so that the induction
      over the `get_sequence` loop need not search for them. */
  lemma SnocThenAppend(acc: seq<nat>, x: nat, rest: seq<nat>)
    ensures (acc + [x]) + rest == acc + ([x] + rest)
  {
  }

  lemma AppendEmpty(acc: seq<nat>)
    ensures acc + [] == acc
  {
  }

  /** A run spelling out a nonempty rest of `ch` from `pos` opens with
      `str(cur)` there, and its tail spells out what follows. */
  lemma RunSplitAt(ch: string, pos: nat, cur: nat, m: nat)
    requires pos < |ch|
    requires Concat(Run(cur, m)) == ch[pos..]
    ensures m >= 1
    ensures MatchesAt(ch, pos, NatToDecimal(cur))
    ensures Concat(Run(cur + 1, m - 1)) == ch[pos + |NatToDecimal(cur)|..]
  {
    var s, t := ch[pos..], NatToDecimal(cur);
    RunSplitStep(s, cur, m);
    MatchesAtSuffix(ch, pos, t);
    assert s[|t|..] == ch[pos + |t|..];
  }

  /** One matching step of the loop of `get_sequence`. */
  lemma GetSequenceFromStep(ch: string, pos: nat, cur: nat, acc: seq<nat>)
    requires pos < |ch| && MatchesAt(ch, pos, NatToDecimal(cur))
    ensures GetSequenceFrom(ch, pos, cur, acc)
      == GetSequenceFrom(ch, pos + |NatToDecimal(cur)|, cur + 1, acc + [cur])
  {
  }

  /** The loop of `get_sequence` returns the numbers collected so far followed
      by the run that spells out the rest of the string. */
  lemma {:induction false} GetSequenceFromMatch(ch: string, pos: nat, cur: nat, acc: seq<nat>, m: nat)
    requires pos <= |ch|
    requires Concat(Run(cur, m)) == ch[pos..]
    ensures GetSequenceFrom(ch, pos, cur, acc) == acc + Run(cur, m)
    decreases |ch| - pos
  {
    if pos < |ch| {
      RunSplitAt(ch, pos, cur, m);
      GetSequenceFromStep(ch, pos, cur, acc);
      GetSequenceFromMatch(ch, pos + |NatToDecimal(cur)|, cur + 1, acc + [cur], m - 1);
      var rest := Run(cur + 1, m - 1);
      assert Run(cur, m) == [cur] + rest;
      SnocThenAppend(acc, cur, rest);
    } else {
      assert |Concat(Run(cur, m))| >= m;
      assert Run(cur, m) == [];
      AppendEmpty(acc);
    }
  }

  /** Conversely, `str(cur)` at `pos` followed by a run from `cur + 1`
      spells out the rest of `ch` from `pos` as a run from `cur`. */
  lemma RunJoinAt(ch: string, pos: nat, cur: nat, m: nat)
    requires MatchesAt(ch, pos, NatToDecimal(cur))
    requires Concat(Run(cur + 1, m)) == ch[pos + |NatToDecimal(cur)|..]
    ensures Concat(Run(cur, m + 1)) == ch[pos..]
  {
    var t := NatToDecimal(cur);
    ConcatRunStep(cur, m);
    assert ch[pos..] == ch[pos..pos + |t|] + ch[pos + |t|..];
  }

  /** ... and the empty list when no run spells out the rest. */
  lemma {:induction false} GetSequenceFromNoMatch(ch: string, pos: nat, cur: nat, acc: seq<nat>)
    requires pos <= |ch|
    ensures GetSequenceFrom(ch, pos, cur, acc) == []
      || exists m: nat :: Concat(Run(cur, m)) == ch[pos..]
    decreases |ch| - pos
  {
    if pos == |ch| {
      assert Concat(Run(cur, 0)) == ch[pos..];
    } else if MatchesAt(ch, pos, NatToDecimal(cur)) {
      var pos', next := pos + |NatToDecimal(cur)|, cur + 1;
      GetSequenceFromStep(ch, pos, cur, acc);
      GetSequenceFromNoMatch(ch, pos', next, acc + [cur]);
      if m: nat :| Concat(Run(next, m)) == ch[pos'..] {
        RunJoinAt(ch, pos, cur, m);
      }
    }
  }

  /** `get_sequence(ch, s)` returns the run from `s` that spells `ch`, and `[]`
      when there is none. */
  lemma GetSequenceSpec(ch: string, start: nat)
    ensures forall m: nat :: Concat(Run(start, m)) == ch ==> GetSequence(ch, start) == Run(start, m)
    ensures (forall m: nat :: Concat(Run(start, m)) != ch) ==> GetSequence(ch, start) == []
  {
    assert ch[0..] == ch;
    forall m: nat | Concat(Run(start, m)) == ch
      ensures GetSequence(ch, start) == Run(start, m)
    {
      GetSequenceFromMatch(ch, 0, start, [], m);
    }
    GetSequenceFromNoMatch(ch, 0, start, []);
  }

  /** A nonempty result of `get_sequence(ch, s)` starts at `s`, steps by one,
      and spells `ch`. */
  lemma GetSequenceSound(ch: string, start: nat)
    ensures var xs := GetSequence(ch, start);
      xs != [] ==> xs[0] == start && IsConsecutive(xs) && Concat(xs) == ch
  {
    GetSequenceSpec(ch, start);
    var xs := GetSequence(ch, start);
    if xs != [] {
      var m: nat :| Concat(Run(start, m)) == ch;
      assert xs == Run(start, m);
      ConsecutiveIsRun(xs);
    }
  }

  /** The two loops walk in step: `validate_sequence` counts what
      `get_sequence` collects, and both stop at the same mismatch. */
  lemma {:induction false} ValidateFromMirrorsGetSequenceFrom(ch: string, pos: nat, cur: nat, acc: seq<nat>)
    requires pos <= |ch|
    ensures ValidateFrom(ch, pos, cur, |acc|) <==> |GetSequenceFrom(ch, pos, cur, acc)| >= 2
    decreases |ch| - pos
  {
    if pos < |ch| {
      var t := NatToDecimal(cur);
      if MatchesAt(ch, pos, t) {
        ValidateFromMirrorsGetSequenceFrom(ch, pos + |t|, cur + 1, acc + [cur]);
      }
    }
  }

  /** `validate_sequence` accepts exactly when `get_sequence` returns at least
      two numbers. */
  lemma ValidateAgreesWithGetSequence(ch: string, start: nat)
    ensures ValidateSequence(ch, start) <==> |GetSequence(ch, start)| >= 2
  {
    ValidateFromMirrorsGetSequenceFrom(ch, 0, start, []);
  }

  /** `validate_sequence(ch, s)` holds exactly when `ch` is the concatenation
      of the run from `s` of some length of at least two. */
  lemma ValidateSequenceSpec(ch: string, start: nat)
    ensures ValidateSequence(ch, start) <==>
      exists m: nat :: m >= 2 && Concat(Run(start, m)) == ch
  {
    ValidateAgreesWithGetSequence(ch, start);
    GetSequenceSpec(ch, start);
    var xs := GetSequence(ch, start);
    if |xs| >= 2 {
      var m: nat :| Concat(Run(start, m)) == ch;
      assert xs == Run(start, m);
      assert m >= 2 && Concat(Run(start, m)) == ch;
    } else {
      forall m: nat | Concat(Run(start, m)) == ch
        ensures m < 2
      {
        assert xs == Run(start, m);
      }
    }
  }

  // ---------------------------------------------------------------------
  // The first number and the "at least two numbers" rule
  // ---------------------------------------------------------------------

  /** An admissible prefix is canonical, so `str(int(prefix)) == prefix`. */
  lemma AdmissiblePrefixRoundTrip(ch: string, firstLen: nat)
    requires IsDigits(ch) && Admissible(ch, firstLen)
    ensures Canonical(ch[..firstLen])
    ensures NatToDecimal(DecimalValue(ch[..firstLen])) == ch[..firstLen]
  {
    NatToDecimalOfDecimalValue(ch[..firstLen]);
  }

  /** From an admissible first length, any run that spells `ch` has at least
      two numbers: the first one covers only `firstLen < |ch|` characters. */
  lemma AdmissibleRunHasTwo(ch: string, firstLen: nat, m: nat)
    requires IsDigits(ch) && Admissible(ch, firstLen)
    requires Concat(Run(DecimalValue(ch[..firstLen]), m)) == ch
    ensures m >= 2
  {
    var v := DecimalValue(ch[..firstLen]);
    AdmissiblePrefixRoundTrip(ch, firstLen);
    assert Concat(Run(v, 0)) == [] != ch;
    ConcatRunStep(v, m - 1);
    assert |Concat(Run(v + 1, m - 1))| == |ch| - firstLen > 0;
  }

  /** The `len(sequence) >= 2` test of the sequence variant never rejects a
      nonempty result for an admissible first length. */
  lemma AdmissibleSequenceHasTwo(ch: string, firstLen: nat)
    requires IsDigits(ch) && Admissible(ch, firstLen)
    ensures var xs := GetSequence(ch, DecimalValue(ch[..firstLen]));
      xs != [] ==> |xs| >= 2
  {
    var v := DecimalValue(ch[..firstLen]);
    GetSequenceSpec(ch, v);
    if GetSequence(ch, v) != [] {
      var m: nat :| Concat(Run(v, m)) == ch;
      AdmissibleRunHasTwo(ch, firstLen, m);
    }
  }

  /** The first number of a split fixes an admissible first length. */
  lemma SplitFirstLength(ch: string, xs: seq<nat>)
    requires IsDigits(ch) && IsSplit(ch, xs)
    ensures var firstLen := |NatToDecimal(xs[0])|;
      && Admissible(ch, firstLen)
      && ch[..firstLen] == NatToDecimal(xs[0])
      && DecimalValue(ch[..firstLen]) == xs[0]
      && ValidateSequence(ch, xs[0])
  {
    var t := NatToDecimal(xs[0]);
    assert |Concat(xs[1..])| >= 1;
    assert ch == t + Concat(xs[1..]);
    assert ch[..|t|] == t;
    DecimalValueOfNatToDecimal(xs[0]);
    ConsecutiveIsRun(xs);
    ValidateSequenceSpec(ch, xs[0]);
  }

  // ---------------------------------------------------------------------
  // The searches against the reference
  // ---------------------------------------------------------------------

  /** The first-length loop from `firstLen` succeeds exactly when some
      admissible first length at or after `firstLen` validates. */
  lemma {:induction false} SearchFromSpec(ch: string, firstLen: nat)
    requires IsDigits(ch) && 1 <= firstLen
    ensures SearchFrom(ch, firstLen) <==>
      exists len: nat :: firstLen <= len && Admissible(ch, len)
        && ValidateSequence(ch, DecimalValue(ch[..len]))
    decreases |ch| - firstLen
  {
    if firstLen < |ch| {
      SearchFromSpec(ch, firstLen + 1);
      if exists len: nat :: (firstLen <= len && Admissible(ch, len)
        && ValidateSequence(ch, DecimalValue(ch[..len])))
      {
        var len: nat :| firstLen <= len && Admissible(ch, len)
          && ValidateSequence(ch, DecimalValue(ch[..len]));
        if len > firstLen {
          assert firstLen + 1 <= len;
        }
      }
    }
  }

  /** `consecutive_increasing_numbers(ch)` holds exactly when `ch` has a
      consecutive increasing split. */
  lemma ConsecutiveIncreasingNumbersCorrect(ch: string)
    requires IsDigits(ch)
    ensures ConsecutiveIncreasingNumbers(ch) <==> exists xs :: IsSplit(ch, xs)
  {
    if |ch| > 0 {
      SearchFromSpec(ch, 1);
      if ConsecutiveIncreasingNumbers(ch) {
        var len: nat :| 1 <= len && Admissible(ch, len)
          && ValidateSequence(ch, DecimalValue(ch[..len]));
        var v := DecimalValue(ch[..len]);
        ValidateSequenceSpec(ch, v);
        var m: nat :| m >= 2 && Concat(Run(v, m)) == ch;
        ConsecutiveIsRun(Run(v, m));
        assert IsSplit(ch, Run(v, m));
      }
      if xs :| IsSplit(ch, xs) {
        SplitFirstLength(ch, xs);
        var len := |NatToDecimal(xs[0])|;
        assert 1 <= len && Admissible(ch, len) && ValidateSequence(ch, DecimalValue(ch[..len]));
      }
    }
  }

  /** `len` is the first admissible first-number length at or after `from`
      whose validation succeeds. */
  predicate IsFirstValidLength(ch: string, from: nat, len: nat)
    requires IsDigits(ch)
  {
    && from <= len && Admissible(ch, len)
    && ValidateSequence(ch, DecimalValue(ch[..len]))
    && forall len': nat :: from <= len' < len && Admissible(ch, len') ==>
         !ValidateSequence(ch, DecimalValue(ch[..len']))
  }

  /** The sequence variant's loop from `firstLen` succeeds exactly when the
      boolean loop does, and returns `(False, [])` when it fails. */
  lemma {:induction false} SearchWithSequenceFromAgrees(ch: string, firstLen: nat)
    requires IsDigits(ch) && 1 <= firstLen
    ensures SearchWithSequenceFrom(ch, firstLen).0 <==> SearchFrom(ch, firstLen)
    ensures !SearchWithSequenceFrom(ch, firstLen).0 ==> SearchWithSequenceFrom(ch, firstLen).1 == []
    decreases |ch| - firstLen
  {
    if firstLen < |ch| {
      SearchWithSequenceFromAgrees(ch, firstLen + 1);
      if !(firstLen > 1 && ch[0] == '0') {
        ValidateAgreesWithGetSequence(ch, DecimalValue(ch[..firstLen]));
      }
    }
  }

  /** When it succeeds, the sequence variant's loop from `firstLen` returns
      the `get_sequence` result for the first admissible length at or after
      `firstLen` that validates. */
  lemma {:induction false} SearchWithSequenceFromFirst(ch: string, firstLen: nat)
    requires IsDigits(ch) && 1 <= firstLen
    ensures var (ok, xs) := SearchWithSequenceFrom(ch, firstLen);
      ok ==> (exists len: nat :: IsFirstValidLength(ch, firstLen, len)
                 && xs == GetSequence(ch, DecimalValue(ch[..len])))
    decreases |ch| - firstLen
  {
    if firstLen < |ch| {
      SearchWithSequenceFromFirst(ch, firstLen + 1);
      var (ok, xs) := SearchWithSequenceFrom(ch, firstLen);
      var v := DecimalValue(ch[..firstLen]);
      if !(firstLen > 1 && ch[0] == '0') && ValidateSequence(ch, v) {
        ValidateAgreesWithGetSequence(ch, v);
        assert IsFirstValidLength(ch, firstLen, firstLen);
      } else if ok {
        assert SearchWithSequenceFrom(ch, firstLen) == SearchWithSequenceFrom(ch, firstLen + 1) by {
          if !(firstLen > 1 && ch[0] == '0') {
            ValidateAgreesWithGetSequence(ch, v);
          }
        }
        var len: nat :| IsFirstValidLength(ch, firstLen + 1, len)
          && xs == GetSequence(ch, DecimalValue(ch[..len]));
        assert IsFirstValidLength(ch, firstLen, len);
      }
    }
  }

  /** The two variants agree: `consecutive_increasing_numbers(ch)` is the
      first component of `consecutive_increasing_numbers_with_sequence(ch)`. */
  lemma VariantsAgree(ch: string)
    requires IsDigits(ch)
    ensures ConsecutiveIncreasingNumbers(ch) == ConsecutiveIncreasingNumbersWithSequence(ch).0
  {
    if |ch| > 0 {
      SearchWithSequenceFromAgrees(ch, 1);
    }
  }

  /** The sequence variant returns a split of `ch` when there is one (and
      `(False, [])` otherwise); the split it returns has the shortest first
      number of all splits of `ch`. */
  lemma WithSequenceCorrect(ch: string)
    requires IsDigits(ch)
    ensures var (ok, xs) := ConsecutiveIncreasingNumbersWithSequence(ch);
      && (ok <==> exists ys :: IsSplit(ch, ys))
      && (ok ==> IsSplit(ch, xs))
      && (ok ==> forall ys :: IsSplit(ch, ys) ==> |NatToDecimal(xs[0])| <= |NatToDecimal(ys[0])|)
      && (!ok ==> xs == [])
  {
    VariantsAgree(ch);
    ConsecutiveIncreasingNumbersCorrect(ch);
    var (ok, xs) := ConsecutiveIncreasingNumbersWithSequence(ch);
    if |ch| > 0 {
      SearchWithSequenceFromAgrees(ch, 1);
      SearchWithSequenceFromFirst(ch, 1);
    }
    if ok {
      var len: nat :| IsFirstValidLength(ch, 1, len)
        && xs == GetSequence(ch, DecimalValue(ch[..len]));
      var v := DecimalValue(ch[..len]);
      ValidateAgreesWithGetSequence(ch, v);
      GetSequenceSound(ch, v);
      assert IsSplit(ch, xs);
      AdmissiblePrefixRoundTrip(ch, len);
      assert |NatToDecimal(xs[0])| == len;
      forall ys | IsSplit(ch, ys)
        ensures len <= |NatToDecimal(ys[0])|
      {
        SplitFirstLength(ch, ys);
      }
    }
  }

  /** A string that begins with '0' can only split as `0, 1, 2, ...`. */
  lemma LeadingZeroStartsAtZero(ch: string)
    requires IsDigits(ch) && |ch| >= 1 && ch[0] == '0'
    ensures var (ok, xs) := ConsecutiveIncreasingNumbersWithSequence(ch);
      ok ==> xs != [] && xs[0] == 0
  {
    WithSequenceCorrect(ch);
    var (ok, xs) := ConsecutiveIncreasingNumbersWithSequence(ch);
    if ok {
      SplitFirstLength(ch, xs);
      assert NatToDecimal(xs[0])[0] == ch[0];
    }
  }
}
