/** The worked examples that accompany `consecutive_increasing.py`. Each
    example takes its input as a parameter fixed by its precondition, so the
    verifier follows the steps given here instead of evaluating the whole
    search on a literal. */
module ConsecutiveIncreasingExamples {
  import opened Decimal
  import opened ConsecutiveIncreasing

  // ---------------------------------------------------------------------
  // Steps of the searches
  // ---------------------------------------------------------------------

  /** The value of a printed number is that number. */
  lemma ValueOfText(k: nat, text: string)
    requires NatToDecimal(k) == text
    ensures IsDigits(text) && DecimalValue(text) == k
  {
    DecimalValueOfNatToDecimal(k);
  }

  /** `t` does not occur at `pos`: it runs past the end or differs at `j`. */
  lemma NoMatchAt(ch: string, pos: nat, t: string, j: nat)
    requires j < |t|
    requires pos + |t| > |ch| || ch[pos + j] != t[j]
    ensures !MatchesAt(ch, pos, t)
  {
    if pos + |t| <= |ch| {
      assert ch[pos..pos + |t|][j] == ch[pos + j];
    }
  }

  /** `GetSequenceFromStep` with the decimal text of `k` given literally. */
  lemma MatchStep(ch: string, pos: nat, k: nat, text: string, acc: seq<nat>)
    requires NatToDecimal(k) == text
    requires pos + |text| <= |ch| && ch[pos..pos + |text|] == text
    ensures GetSequenceFrom(ch, pos, k, acc) == GetSequenceFrom(ch, pos + |text|, k + 1, acc + [k])
  {
  }

  /** `get_sequence` stops with `[]` when `str(k)` opens `ch` but `str(k+1)`
      does not follow it. */
  lemma SecondMismatch(ch: string, k: nat, first: string, second: string)
    requires NatToDecimal(k) == first && NatToDecimal(k + 1) == second
    requires |first| < |ch| && MatchesAt(ch, 0, first) && !MatchesAt(ch, |first|, second)
    ensures GetSequence(ch, k) == []
  {
    assert [] + [k] == [k];
    MatchStep(ch, 0, k, first, []);
  }

  /** A first length whose `get_sequence` is empty passes the search on to
      the next length, in both variants. */
  lemma SkipFirstLength(ch: string, firstLen: nat, k: nat, first: string)
    requires IsDigits(ch) && 1 <= firstLen < |ch|
    requires ch[..firstLen] == first && NatToDecimal(k) == first
    requires GetSequence(ch, k) == []
    ensures SearchFrom(ch, firstLen) == SearchFrom(ch, firstLen + 1)
    ensures SearchWithSequenceFrom(ch, firstLen) == SearchWithSequenceFrom(ch, firstLen + 1)
  {
    ValueOfText(k, first);
    ValidateAgreesWithGetSequence(ch, k);
  }

  /** A first length whose number `k` opens `ch` but is not followed by
      `str(k+1)` (which runs past the end or differs at its `j`-th character)
      passes the search on to the next length. */
  lemma SkipAtSecond(ch: string, firstLen: nat, k: nat, first: string, second: string, j: nat)
    requires IsDigits(ch) && 1 <= firstLen < |ch|
    requires NatToDecimal(k) == first && NatToDecimal(k + 1) == second
    requires ch[..firstLen] == first
    requires j < |second| && (firstLen + |second| > |ch| || ch[firstLen + j] != second[j])
    ensures SearchFrom(ch, firstLen) == SearchFrom(ch, firstLen + 1)
    ensures SearchWithSequenceFrom(ch, firstLen) == SearchWithSequenceFrom(ch, firstLen + 1)
  {
    assert ch[0..firstLen] == ch[..firstLen];
    NoMatchAt(ch, firstLen, second, j);
    SecondMismatch(ch, k, first, second);
    SkipFirstLength(ch, firstLen, k, first);
  }

  /** A first length whose `get_sequence` returns two or more numbers ends
      the search with that list. */
  lemma AcceptFirstLength(ch: string, firstLen: nat, k: nat, first: string)
    requires IsDigits(ch) && 1 <= firstLen < |ch| && !(firstLen > 1 && ch[0] == '0')
    requires ch[..firstLen] == first && NatToDecimal(k) == first
    requires |GetSequence(ch, k)| >= 2
    ensures SearchFrom(ch, firstLen)
    ensures SearchWithSequenceFrom(ch, firstLen) == (true, GetSequence(ch, k))
  {
    ValueOfText(k, first);
    ValidateAgreesWithGetSequence(ch, k);
  }

  /** A string opening with a '9' that is not followed by a '1' cannot
      start with 9, 10: the first length 1 is skipped. */
  lemma SkipLeadingNine(ch: string)
    requires IsDigits(ch) && |ch| >= 2 && ch[0] == '9' && ch[1] != '1'
    ensures SearchFrom(ch, 1) == SearchFrom(ch, 2)
    ensures SearchWithSequenceFrom(ch, 1) == SearchWithSequenceFrom(ch, 2)
  {
    TextsOf9And10();
    assert ch[..1] == "9";
    SkipAtSecond(ch, 1, 9, "9", "10", 0);
  }

  /** Decimal texts of the numbers the examples below meet, each worked out
      on its own. */
  lemma TextsOf9And10()
    ensures NatToDecimal(9) == "9" && NatToDecimal(10) == "10"
  {
  }

  lemma TextsOf9And10And11()
    ensures NatToDecimal(9) == "9" && NatToDecimal(10) == "10" && NatToDecimal(11) == "11"
  {
  }

  lemma TextsOf11And12()
    ensures NatToDecimal(11) == "11" && NatToDecimal(12) == "12"
  {
  }

  lemma TextsOf19And20()
    ensures NatToDecimal(19) == "19" && NatToDecimal(20) == "20"
  {
  }

  lemma TextsOf97And98()
    ensures NatToDecimal(97) == "97" && NatToDecimal(98) == "98"
  {
  }

  lemma TextsOf99And100()
    ensures NatToDecimal(99) == "99" && NatToDecimal(100) == "100"
  {
    TextsOf9And10();
    NatToDecimalAppendDigit(9, 9);
    NatToDecimalAppendDigit(10, 0);
  }

  lemma TextsOf100And101()
    ensures NatToDecimal(100) == "100" && NatToDecimal(101) == "101"
  {
  }

  lemma TextsOf191And192()
    ensures NatToDecimal(191) == "191" && NatToDecimal(192) == "192"
  {
    TextsOf19And20();
    NatToDecimalAppendDigit(19, 1);
    NatToDecimalAppendDigit(19, 2);
  }

  lemma TextsOf999And1000()
    ensures NatToDecimal(999) == "999" && NatToDecimal(1000) == "1000"
  {
    TextsOf99And100();
    NatToDecimalAppendDigit(99, 9);
    NatToDecimalAppendDigit(100, 0);
  }

  lemma TextsOf1910And1911()
    ensures NatToDecimal(1910) == "1910" && NatToDecimal(1911) == "1911"
  {
    TextsOf191And192();
    NatToDecimalAppendDigit(191, 0);
    NatToDecimalAppendDigit(191, 1);
  }

  lemma TextOf9999()
    ensures NatToDecimal(9999) == "9999"
  {
    TextsOf999And1000();
    NatToDecimalAppendDigit(999, 9);
  }

  lemma TextOf10000()
    ensures NatToDecimal(10000) == "10000"
  {
    TextsOf999And1000();
    NatToDecimalAppendDigit(1000, 0);
  }

  lemma TextOf10001()
    ensures NatToDecimal(10001) == "10001"
  {
    TextsOf999And1000();
    NatToDecimalAppendDigit(1000, 1);
  }

  lemma TextsOf19101And19102()
    ensures NatToDecimal(19101) == "19101" && NatToDecimal(19102) == "19102"
  {
    TextsOf1910And1911();
    NatToDecimalAppendDigit(1910, 1);
    NatToDecimalAppendDigit(1910, 2);
  }

  /** Both entry points start the search at first length 1. */
  lemma EntryPoints(ch: string)
    requires IsDigits(ch) && |ch| > 0
    ensures ConsecutiveIncreasingNumbers(ch) == SearchFrom(ch, 1)
    ensures ConsecutiveIncreasingNumbersWithSequence(ch) == SearchWithSequenceFrom(ch, 1)
  {
  }

  // ---------------------------------------------------------------------
  // Accepted inputs
  // ---------------------------------------------------------------------

  /** "99100" splits as 99, 100 (the first length 1 fails at "91"). */
  lemma Example99100(ch: string)
    requires ch == "99100"
    ensures ConsecutiveIncreasingNumbers(ch)
    ensures ConsecutiveIncreasingNumbersWithSequence(ch) == (true, [99, 100])
  {
    TextsOf9And10();
    assert ch[..1] == "9";
    SkipAtSecond(ch, 1, 9, "9", "10", 0);
    Sequence99100(ch);
    assert ch[..2] == "99";
    AcceptFirstLength(ch, 2, 99, "99");
    EntryPoints(ch);
  }

  lemma Sequence99100(ch: string)
    requires ch == "99100"
    ensures GetSequence(ch, 99) == [99, 100]
  {
    TextsOf99And100();
    assert ch[0..2] == "99" && ch[2..5] == "100";
    MatchStep(ch, 0, 99, "99", []);
    assert [] + [99] == [99];
    MatchStep(ch, 2, 100, "100", [99]);
    assert [99] + [100] == [99, 100];
  }

  /** "12" splits as 1, 2. */
  lemma Example12(ch: string)
    requires ch == "12"
    ensures ConsecutiveIncreasingNumbers(ch)
    ensures ConsecutiveIncreasingNumbersWithSequence(ch) == (true, [1, 2])
  {
    Sequence12(ch);
    assert NatToDecimal(1) == "1";
    assert ch[..1] == "1";
    AcceptFirstLength(ch, 1, 1, "1");
    EntryPoints(ch);
  }

  lemma Sequence12(ch: string)
    requires ch == "12"
    ensures GetSequence(ch, 1) == [1, 2]
  {
    assert NatToDecimal(1) == "1" && NatToDecimal(2) == "2";
    assert ch[0..1] == "1" && ch[1..2] == "2";
    MatchStep(ch, 0, 1, "1", []);
    assert [] + [1] == [1];
    MatchStep(ch, 1, 2, "2", [1]);
    assert [1] + [2] == [1, 2];
    assert GetSequenceFrom(ch, 2, 3, [1, 2]) == [1, 2];
  }

  /** "91011" splits as 9, 10, 11. */
  lemma Example91011(ch: string)
    requires ch == "91011"
    ensures ConsecutiveIncreasingNumbers(ch)
    ensures ConsecutiveIncreasingNumbersWithSequence(ch) == (true, [9, 10, 11])
  {
    Sequence91011(ch);
    assert NatToDecimal(9) == "9";
    assert ch[..1] == "9";
    AcceptFirstLength(ch, 1, 9, "9");
    EntryPoints(ch);
  }

  lemma Sequence91011(ch: string)
    requires ch == "91011"
    ensures GetSequence(ch, 9) == [9, 10, 11]
  {
    TextsOf9And10And11();
    assert ch[0..1] == "9" && ch[1..3] == "10" && ch[3..5] == "11";
    MatchStep(ch, 0, 9, "9", []);
    assert [] + [9] == [9];
    MatchStep(ch, 1, 10, "10", [9]);
    assert [9] + [10] == [9, 10];
    MatchStep(ch, 3, 11, "11", [9, 10]);
    assert [9, 10] + [11] == [9, 10, 11];
  }

  /** "99991000010001" splits as 9999, 10000, 10001 after the first lengths
      1, 2 and 3 fail. */
  lemma Example99991000010001(ch: string)
    requires ch == "99991000010001"
    ensures ConsecutiveIncreasingNumbers(ch)
    ensures ConsecutiveIncreasingNumbersWithSequence(ch) == (true, [9999, 10000, 10001])
  {
    SkipLeadingNine(ch);
    Steps99991000010001B(ch);
    Steps99991000010001C(ch);
    Steps99991000010001D(ch);
    EntryPoints(ch);
  }

  lemma Steps99991000010001B(ch: string)
    requires ch == "99991000010001"
    ensures SearchFrom(ch, 2) == SearchFrom(ch, 3)
    ensures SearchWithSequenceFrom(ch, 2) == SearchWithSequenceFrom(ch, 3)
  {
    TextsOf99And100();
    assert ch[..2] == "99";
    SkipAtSecond(ch, 2, 99, "99", "100", 0);
  }

  lemma Steps99991000010001C(ch: string)
    requires ch == "99991000010001"
    ensures SearchFrom(ch, 3) == SearchFrom(ch, 4)
    ensures SearchWithSequenceFrom(ch, 3) == SearchWithSequenceFrom(ch, 4)
  {
    TextsOf999And1000();
    assert ch[..3] == "999";
    SkipAtSecond(ch, 3, 999, "999", "1000", 0);
  }

  lemma Steps99991000010001D(ch: string)
    requires ch == "99991000010001"
    ensures SearchFrom(ch, 4)
    ensures SearchWithSequenceFrom(ch, 4) == (true, [9999, 10000, 10001])
  {
    Sequence99991000010001(ch);
    TextOf9999();
    assert ch[..4] == "9999";
    AcceptFirstLength(ch, 4, 9999, "9999");
  }

  lemma Sequence99991000010001(ch: string)
    requires ch == "99991000010001"
    ensures GetSequence(ch, 9999) == [9999, 10000, 10001]
  {
    TextOf9999();
    assert ch[0..4] == "9999";
    MatchStep(ch, 0, 9999, "9999", []);
    assert [] + [9999] == [9999];
    Sequence99991000010001Tail(ch);
  }

  lemma Sequence99991000010001Tail(ch: string)
    requires ch == "99991000010001"
    ensures GetSequenceFrom(ch, 4, 10000, [9999]) == [9999, 10000, 10001]
  {
    TextOf10000();
    assert ch[4..9] == "10000";
    MatchStep(ch, 4, 10000, "10000", [9999]);
    assert [9999] + [10000] == [9999, 10000];
    Sequence99991000010001End(ch);
  }

  lemma Sequence99991000010001End(ch: string)
    requires ch == "99991000010001"
    ensures GetSequenceFrom(ch, 9, 10001, [9999, 10000]) == [9999, 10000, 10001]
  {
    TextOf10001();
    assert ch[9..14] == "10001";
    MatchStep(ch, 9, 10001, "10001", [9999, 10000]);
    assert [9999, 10000] + [10001] == [9999, 10000, 10001];
  }

  /** "979899100101" splits as 97, 98, 99, 100, 101. */
  lemma Example979899100101(ch: string)
    requires ch == "979899100101"
    ensures ConsecutiveIncreasingNumbers(ch)
    ensures ConsecutiveIncreasingNumbersWithSequence(ch) == (true, [97, 98, 99, 100, 101])
  {
    SkipLeadingNine(ch);
    Steps979899100101B(ch);
    EntryPoints(ch);
  }

  lemma Steps979899100101B(ch: string)
    requires ch == "979899100101"
    ensures SearchFrom(ch, 2)
    ensures SearchWithSequenceFrom(ch, 2) == (true, [97, 98, 99, 100, 101])
  {
    Sequence979899100101(ch);
    TextsOf97And98();
    assert ch[..2] == "97";
    AcceptFirstLength(ch, 2, 97, "97");
  }

  lemma Sequence979899100101(ch: string)
    requires ch == "979899100101"
    ensures GetSequence(ch, 97) == [97, 98, 99, 100, 101]
  {
    TextsOf97And98();
    assert ch[0..2] == "97" && ch[2..4] == "98";
    MatchStep(ch, 0, 97, "97", []);
    assert [] + [97] == [97];
    MatchStep(ch, 2, 98, "98", [97]);
    assert [97] + [98] == [97, 98];
    Sequence979899100101Tail(ch);
  }

  lemma Sequence979899100101Tail(ch: string)
    requires ch == "979899100101"
    ensures GetSequenceFrom(ch, 4, 99, [97, 98]) == [97, 98, 99, 100, 101]
  {
    TextsOf99And100();
    assert ch[4..6] == "99";
    MatchStep(ch, 4, 99, "99", [97, 98]);
    assert [97, 98] + [99] == [97, 98, 99];
    Sequence979899100101End(ch);
  }

  lemma Sequence979899100101End(ch: string)
    requires ch == "979899100101"
    ensures GetSequenceFrom(ch, 6, 100, [97, 98, 99]) == [97, 98, 99, 100, 101]
  {
    TextsOf100And101();
    assert ch[6..9] == "100" && ch[9..12] == "101";
    MatchStep(ch, 6, 100, "100", [97, 98, 99]);
    assert [97, 98, 99] + [100] == [97, 98, 99, 100];
    MatchStep(ch, 9, 101, "101", [97, 98, 99, 100]);
    assert [97, 98, 99, 100] + [101] == [97, 98, 99, 100, 101];
  }

  /** "12345" is accepted; shortest first number first gives 1, 2, 3, 4, 5
      rather than 123, 124, 125 (which is not a split of "12345" anyway). */
  lemma Example12345(ch: string)
    requires ch == "12345"
    ensures ConsecutiveIncreasingNumbers(ch)
    ensures ConsecutiveIncreasingNumbersWithSequence(ch) == (true, [1, 2, 3, 4, 5])
  {
    Sequence12345(ch);
    assert NatToDecimal(1) == "1";
    assert ch[..1] == "1";
    AcceptFirstLength(ch, 1, 1, "1");
    EntryPoints(ch);
  }

  lemma Sequence12345(ch: string)
    requires ch == "12345"
    ensures GetSequence(ch, 1) == [1, 2, 3, 4, 5]
  {
    assert NatToDecimal(1) == "1" && NatToDecimal(2) == "2";
    assert ch[0..1] == "1" && ch[1..2] == "2";
    MatchStep(ch, 0, 1, "1", []);
    assert [] + [1] == [1];
    MatchStep(ch, 1, 2, "2", [1]);
    assert [1] + [2] == [1, 2];
    Sequence12345Tail(ch);
  }

  lemma Sequence12345Tail(ch: string)
    requires ch == "12345"
    ensures GetSequenceFrom(ch, 2, 3, [1, 2]) == [1, 2, 3, 4, 5]
  {
    assert NatToDecimal(3) == "3" && NatToDecimal(4) == "4" && NatToDecimal(5) == "5";
    assert ch[2..3] == "3" && ch[3..4] == "4" && ch[4..5] == "5";
    MatchStep(ch, 2, 3, "3", [1, 2]);
    assert [1, 2] + [3] == [1, 2, 3];
    MatchStep(ch, 3, 4, "4", [1, 2, 3]);
    assert [1, 2, 3] + [4] == [1, 2, 3, 4];
    MatchStep(ch, 4, 5, "5", [1, 2, 3, 4]);
    assert [1, 2, 3, 4] + [5] == [1, 2, 3, 4, 5];
  }

  /** "123456" splits as 1, 2, 3, 4, 5, 6. */
  lemma Example123456(ch: string)
    requires ch == "123456"
    ensures ConsecutiveIncreasingNumbers(ch)
    ensures ConsecutiveIncreasingNumbersWithSequence(ch) == (true, [1, 2, 3, 4, 5, 6])
  {
    Sequence123456(ch);
    assert NatToDecimal(1) == "1";
    assert ch[..1] == "1";
    AcceptFirstLength(ch, 1, 1, "1");
    EntryPoints(ch);
  }

  lemma Sequence123456(ch: string)
    requires ch == "123456"
    ensures GetSequence(ch, 1) == [1, 2, 3, 4, 5, 6]
  {
    assert NatToDecimal(1) == "1" && NatToDecimal(2) == "2" && NatToDecimal(3) == "3";
    assert ch[0..1] == "1" && ch[1..2] == "2" && ch[2..3] == "3";
    MatchStep(ch, 0, 1, "1", []);
    assert [] + [1] == [1];
    MatchStep(ch, 1, 2, "2", [1]);
    assert [1] + [2] == [1, 2];
    MatchStep(ch, 2, 3, "3", [1, 2]);
    assert [1, 2] + [3] == [1, 2, 3];
    Sequence123456Tail(ch);
  }

  lemma Sequence123456Tail(ch: string)
    requires ch == "123456"
    ensures GetSequenceFrom(ch, 3, 4, [1, 2, 3]) == [1, 2, 3, 4, 5, 6]
  {
    assert NatToDecimal(4) == "4" && NatToDecimal(5) == "5" && NatToDecimal(6) == "6";
    assert ch[3..4] == "4" && ch[4..5] == "5" && ch[5..6] == "6";
    MatchStep(ch, 3, 4, "4", [1, 2, 3]);
    assert [1, 2, 3] + [4] == [1, 2, 3, 4];
    MatchStep(ch, 4, 5, "5", [1, 2, 3, 4]);
    assert [1, 2, 3, 4] + [5] == [1, 2, 3, 4, 5];
    MatchStep(ch, 5, 6, "6", [1, 2, 3, 4, 5]);
    assert [1, 2, 3, 4, 5] + [6] == [1, 2, 3, 4, 5, 6];
  }

  /** "123" splits as 1, 2, 3. */
  lemma Example123(ch: string)
    requires ch == "123"
    ensures ConsecutiveIncreasingNumbers(ch)
    ensures ConsecutiveIncreasingNumbersWithSequence(ch) == (true, [1, 2, 3])
  {
    Sequence123(ch);
    assert NatToDecimal(1) == "1";
    assert ch[..1] == "1";
    AcceptFirstLength(ch, 1, 1, "1");
    EntryPoints(ch);
  }

  lemma Sequence123(ch: string)
    requires ch == "123"
    ensures GetSequence(ch, 1) == [1, 2, 3]
  {
    assert NatToDecimal(1) == "1";
    assert ch[0..1] == "1";
    MatchStep(ch, 0, 1, "1", []);
    assert [] + [1] == [1];
    Sequence123Tail(ch);
  }

  lemma Sequence123Tail(ch: string)
    requires ch == "123"
    ensures GetSequenceFrom(ch, 1, 2, [1]) == [1, 2, 3]
  {
    assert NatToDecimal(2) == "2" && NatToDecimal(3) == "3";
    assert ch[1..2] == "2" && ch[2..3] == "3";
    MatchStep(ch, 1, 2, "2", [1]);
    assert [1] + [2] == [1, 2];
    MatchStep(ch, 2, 3, "3", [1, 2]);
    assert [1, 2] + [3] == [1, 2, 3];
  }

  /** "67891011" splits as 6, 7, 8, 9, 10, 11. */
  lemma Example67891011(ch: string)
    requires ch == "67891011"
    ensures ConsecutiveIncreasingNumbers(ch)
    ensures ConsecutiveIncreasingNumbersWithSequence(ch) == (true, [6, 7, 8, 9, 10, 11])
  {
    Sequence67891011(ch);
    assert NatToDecimal(6) == "6";
    assert ch[..1] == "6";
    AcceptFirstLength(ch, 1, 6, "6");
    EntryPoints(ch);
  }

  lemma Sequence67891011(ch: string)
    requires ch == "67891011"
    ensures GetSequence(ch, 6) == [6, 7, 8, 9, 10, 11]
  {
    assert NatToDecimal(6) == "6" && NatToDecimal(7) == "7";
    assert ch[0..1] == "6" && ch[1..2] == "7";
    MatchStep(ch, 0, 6, "6", []);
    assert [] + [6] == [6];
    MatchStep(ch, 1, 7, "7", [6]);
    assert [6] + [7] == [6, 7];
    Sequence67891011Tail(ch);
  }

  lemma Sequence67891011Tail(ch: string)
    requires ch == "67891011"
    ensures GetSequenceFrom(ch, 2, 8, [6, 7]) == [6, 7, 8, 9, 10, 11]
  {
    assert NatToDecimal(8) == "8" && NatToDecimal(9) == "9";
    assert ch[2..3] == "8" && ch[3..4] == "9";
    MatchStep(ch, 2, 8, "8", [6, 7]);
    assert [6, 7] + [8] == [6, 7, 8];
    MatchStep(ch, 3, 9, "9", [6, 7, 8]);
    assert [6, 7, 8] + [9] == [6, 7, 8, 9];
    Sequence67891011End(ch);
  }

  lemma Sequence67891011End(ch: string)
    requires ch == "67891011"
    ensures GetSequenceFrom(ch, 4, 10, [6, 7, 8, 9]) == [6, 7, 8, 9, 10, 11]
  {
    TextsOf9And10And11();
    assert ch[4..6] == "10" && ch[6..8] == "11";
    MatchStep(ch, 4, 10, "10", [6, 7, 8, 9]);
    assert [6, 7, 8, 9] + [10] == [6, 7, 8, 9, 10];
    MatchStep(ch, 6, 11, "11", [6, 7, 8, 9, 10]);
    assert [6, 7, 8, 9, 10] + [11] == [6, 7, 8, 9, 10, 11];
  }

  /** "01" splits as 0, 1: the single digit '0' is an admissible first
      number, so zero may open a split. */
  lemma Example01(ch: string)
    requires ch == "01"
    ensures ConsecutiveIncreasingNumbers(ch)
    ensures ConsecutiveIncreasingNumbersWithSequence(ch) == (true, [0, 1])
  {
    assert NatToDecimal(0) == "0" && NatToDecimal(1) == "1";
    assert ch[..1] == "0" && ch[0..1] == "0" && ch[1..2] == "1";
    MatchStep(ch, 0, 0, "0", []);
    assert [] + [0] == [0];
    MatchStep(ch, 1, 1, "1", [0]);
    assert [0] + [1] == [0, 1];
    AcceptFirstLength(ch, 1, 0, "0");
    EntryPoints(ch);
  }

  // ---------------------------------------------------------------------
  // Rejected inputs
  // ---------------------------------------------------------------------

  /** "010": the first number 0 is followed by "1" but then "2" is missing,
      and the first length 2 is skipped for its leading zero. */
  lemma Example010(ch: string)
    requires ch == "010"
    ensures !ConsecutiveIncreasingNumbers(ch)
    ensures ConsecutiveIncreasingNumbersWithSequence(ch) == (false, [])
  {
    assert NatToDecimal(0) == "0" && NatToDecimal(1) == "1" && NatToDecimal(2) == "2";
    assert ch[..1] == "0" && ch[0..1] == "0" && ch[1..2] == "1";
    MatchStep(ch, 0, 0, "0", []);
    assert [] + [0] == [0];
    MatchStep(ch, 1, 1, "1", [0]);
    NoMatchAt(ch, 2, "2", 0);
    assert GetSequenceFrom(ch, 2, 2, [0, 1]) == [];
    SkipFirstLength(ch, 1, 0, "0");
    EntryPoints(ch);
  }

  /** "111" has no split: 1 is not followed by "2", 11 not by "12". */
  lemma Example111(ch: string)
    requires ch == "111"
    ensures !ConsecutiveIncreasingNumbers(ch)
    ensures ConsecutiveIncreasingNumbersWithSequence(ch) == (false, [])
  {
    assert NatToDecimal(1) == "1" && NatToDecimal(2) == "2";
    assert ch[..1] == "1";
    SkipAtSecond(ch, 1, 1, "1", "2", 0);
    TextsOf11And12();
    assert ch[..2] == "11";
    SkipAtSecond(ch, 2, 11, "11", "12", 0);
    EntryPoints(ch);
  }

  /** A single digit never splits: there is no room for a second number. */
  lemma Example1(ch: string)
    requires ch == "1"
    ensures !ConsecutiveIncreasingNumbers(ch)
    ensures ConsecutiveIncreasingNumbersWithSequence(ch) == (false, [])
  {
    EntryPoints(ch);
  }

  /** The empty string is rejected by both variants. */
  lemma ExampleEmpty(ch: string)
    requires ch == ""
    ensures !ConsecutiveIncreasingNumbers(ch)
    ensures ConsecutiveIncreasingNumbersWithSequence(ch) == (false, [])
  {
  }

  /** "191011" has no split: every first length fails at its second number. */
  lemma Example191011(ch: string)
    requires ch == "191011"
    ensures !ConsecutiveIncreasingNumbers(ch)
    ensures ConsecutiveIncreasingNumbersWithSequence(ch) == (false, [])
  {
    Steps191011A(ch);
    Steps191011B(ch);
    Steps191011C(ch);
    Steps191011D(ch);
    Steps191011E(ch);
    EntryPoints(ch);
  }

  lemma Steps191011A(ch: string)
    requires ch == "191011"
    ensures SearchFrom(ch, 1) == SearchFrom(ch, 2)
    ensures SearchWithSequenceFrom(ch, 1) == SearchWithSequenceFrom(ch, 2)
  {
    assert NatToDecimal(1) == "1" && NatToDecimal(2) == "2";
    assert ch[..1] == "1";
    SkipAtSecond(ch, 1, 1, "1", "2", 0);
  }

  lemma Steps191011B(ch: string)
    requires ch == "191011"
    ensures SearchFrom(ch, 2) == SearchFrom(ch, 3)
    ensures SearchWithSequenceFrom(ch, 2) == SearchWithSequenceFrom(ch, 3)
  {
    TextsOf19And20();
    assert ch[..2] == "19";
    SkipAtSecond(ch, 2, 19, "19", "20", 0);
  }

  lemma Steps191011C(ch: string)
    requires ch == "191011"
    ensures SearchFrom(ch, 3) == SearchFrom(ch, 4)
    ensures SearchWithSequenceFrom(ch, 3) == SearchWithSequenceFrom(ch, 4)
  {
    TextsOf191And192();
    assert ch[..3] == "191";
    SkipAtSecond(ch, 3, 191, "191", "192", 0);
  }

  lemma Steps191011D(ch: string)
    requires ch == "191011"
    ensures SearchFrom(ch, 4) == SearchFrom(ch, 5)
    ensures SearchWithSequenceFrom(ch, 4) == SearchWithSequenceFrom(ch, 5)
  {
    TextsOf1910And1911();
    assert ch[..4] == "1910";
    SkipAtSecond(ch, 4, 1910, "1910", "1911", 0);
  }

  lemma Steps191011E(ch: string)
    requires ch == "191011"
    ensures !SearchFrom(ch, 5)
    ensures SearchWithSequenceFrom(ch, 5) == (false, [])
  {
    TextsOf19101And19102();
    assert ch[..5] == "19101";
    SkipAtSecond(ch, 5, 19101, "19101", "19102", 0);
  }
}
