/**
 The self-measuring token count of a context pack (internal/contextretrieval/pack.go,
 `measurePack`).  The count is a quarter of the length of the canonical JSON, which
 contains the digits of the count and of the cumulative count.  The program iterates at
 most eight times and does not report whether it converged.
 */
module PackMeter {

  /** The accounting record; all fields are Go ints that are never negative. */
  datatype BudgetUsed = BudgetUsed(
    sourceBytes: nat,
    contextTokens: nat,
    reservedPromptTokens: nat,
    cumulativeSourceBytes: nat,
    cumulativeContextTokens: nat,
    expandCount: nat)
  {
    /** Far enough below the 64-bit limit that no count of the next pack overflows. */
    predicate Small() {
      contextTokens < TWO_62 && cumulativeContextTokens < TWO_62
    }
  }

  const TWO_62: nat := 0x4000_0000_0000_0000

  const NOTHING_USED := BudgetUsed(0, 0, 0, 0, 0, 0)

  /** Number of decimal digits as JSON prints it. */
  function Digits(n: nat): (d: nat)
    ensures d >= 1
  {
    if n < 10 then 1 else 1 + Digits(n / 10)
  }

  function TokensOf(length: nat): nat {
    (length + 3) / 4
  }

  /** Length of the canonical JSON, given the length of everything but the two counts. */
  function EncodedLength(envelope: nat, tokens: nat, cumulative: nat): nat {
    envelope + Digits(tokens) + Digits(cumulative)
  }

  function CumulativeTokens(previous: BudgetUsed, tokens: nat): nat {
    (if previous.cumulativeContextTokens == 0 then previous.contextTokens else previous.cumulativeContextTokens)
    + if tokens > previous.contextTokens then tokens - previous.contextTokens else 0
  }

  function CumulativeBytes(previous: BudgetUsed, bytes: nat): nat {
    (if previous.cumulativeSourceBytes == 0 then previous.sourceBytes else previous.cumulativeSourceBytes)
    + if bytes > previous.sourceBytes then bytes - previous.sourceBytes else 0
  }

  /** The counts describe the very JSON that contains them. */
  predicate Consistent(envelope: nat, previous: BudgetUsed, tokens: nat, cumulative: nat) {
    && tokens == TokensOf(EncodedLength(envelope, tokens, cumulative))
    && cumulative == CumulativeTokens(previous, tokens)
  }

  // ---------- how the number of digits moves ----------

  lemma {:induction false} DigitsMonotone(x: nat, y: nat)
    requires x <= y
    ensures Digits(x) <= Digits(y)
  {
    if x >= 10 { DigitsMonotone(x / 10, y / 10); }
  }

  /** Adding less than ten changes the number of digits by at most one. */
  lemma {:induction false} DigitsOfNear(x: nat, y: nat)
    requires x <= y <= x + 9
    ensures Digits(x) <= Digits(y) <= Digits(x) + 1
  {
    DigitsMonotone(x, y);
    if x >= 10 {
      DigitsOfNear(x / 10, y / 10);
    }
  }

  function Pow10(k: nat): nat {
    if k == 0 then 1 else 10 * Pow10(k - 1)
  }

  lemma Pow10Of19()
    ensures Pow10(19) == 10_000_000_000_000_000_000
  {
    assert Pow10(4) == 10_000;
    assert Pow10(8) == 100_000_000;
    assert Pow10(12) == 1_000_000_000_000;
    assert Pow10(16) == 10_000_000_000_000_000;
  }

  lemma {:induction false} DigitsBound(n: nat, k: nat)
    requires k >= 1 && n < Pow10(k)
    ensures Digits(n) <= k
  {
    if n >= 10 { DigitsBound(n / 10, k - 1); }
  }

  /** The two counts that follow from a given number of digits, and their number of digits. */
  function NextTokens(envelope: nat, width: nat): nat {
    TokensOf(envelope + width)
  }

  function NextWidth(envelope: nat, previous: BudgetUsed, width: nat): nat {
    var tokens := NextTokens(envelope, width);
    Digits(tokens) + Digits(CumulativeTokens(previous, tokens))
  }

  function WidthAfter(envelope: nat, previous: BudgetUsed, width: nat, attempts: nat): nat {
    if attempts == 0 then width
    else NextWidth(envelope, previous, WidthAfter(envelope, previous, width, attempts - 1))
  }

  /** More digits never lead to fewer, and over the whole range of 64-bit counts the next
      number of digits takes at most three neighbouring values. */
  lemma NextWidthIsMonotone(envelope: nat, previous: BudgetUsed, w: nat, v: nat)
    requires w <= v <= w + 36
    ensures NextWidth(envelope, previous, w) <= NextWidth(envelope, previous, v) <= NextWidth(envelope, previous, w) + 2
  {
    var s, t := NextTokens(envelope, w), NextTokens(envelope, v);
    assert s <= t <= s + 9;
    DigitsOfNear(s, t);
    DigitsOfNear(CumulativeTokens(previous, s), CumulativeTokens(previous, t));
  }

  /** Every 64-bit count has at most nineteen digits. */
  lemma WidthIsBounded(envelope: nat, previous: BudgetUsed, width: nat)
    requires envelope < TWO_62 && previous.Small() && 2 <= width <= 38
    ensures 2 <= NextWidth(envelope, previous, width) <= 38
  {
    var tokens := NextTokens(envelope, width);
    Pow10Of19();
    DigitsBound(tokens, 19);
    DigitsBound(CumulativeTokens(previous, tokens), 19);
  }

  /** A monotone chain within three neighbouring values stands still after three moves. */
  lemma ChainSettles(envelope: nat, previous: BudgetUsed, w0: nat, w1: nat, w2: nat, w3: nat)
    requires envelope < TWO_62 && previous.Small() && 2 <= w0 <= 38
    requires w1 == NextWidth(envelope, previous, w0)
    requires w2 == NextWidth(envelope, previous, w1)
    requires w3 == NextWidth(envelope, previous, w2)
    ensures NextWidth(envelope, previous, w3) == w3
  {
    WidthIsBounded(envelope, previous, w0);
    WidthIsBounded(envelope, previous, w1);
    WidthIsBounded(envelope, previous, w2);
    NextWidthIsMonotone(envelope, previous, 2, w0);
    NextWidthIsMonotone(envelope, previous, 2, w1);
    NextWidthIsMonotone(envelope, previous, 2, w2);
    NextWidthIsMonotone(envelope, previous, 2, w3);
    if w0 <= w1 {
      NextWidthIsMonotone(envelope, previous, w0, w1);
      NextWidthIsMonotone(envelope, previous, w1, w2);
      NextWidthIsMonotone(envelope, previous, w2, w3);
    } else {
      NextWidthIsMonotone(envelope, previous, w1, w0);
      NextWidthIsMonotone(envelope, previous, w2, w1);
      NextWidthIsMonotone(envelope, previous, w3, w2);
    }
  }

  lemma {:induction false} SettledStaysSettled(envelope: nat, previous: BudgetUsed, w0: nat, k: nat)
    requires envelope < TWO_62 && previous.Small() && 2 <= w0 <= 38
    requires k >= 3
    ensures WidthAfter(envelope, previous, w0, k + 1) == WidthAfter(envelope, previous, w0, k)
  {
    if k > 3 {
      SettledStaysSettled(envelope, previous, w0, k - 1);
    } else {
      var w1 := NextWidth(envelope, previous, w0);
      var w2 := NextWidth(envelope, previous, w1);
      var w3 := NextWidth(envelope, previous, w2);
      ChainSettles(envelope, previous, w0, w1, w2, w3);
      assert WidthAfter(envelope, previous, w0, 1) == w1;
      assert WidthAfter(envelope, previous, w0, 2) == w2;
      assert WidthAfter(envelope, previous, w0, 3) == w3;
    }
  }

  /** The iteration itself. */
  function Settle(envelope: nat, previous: BudgetUsed, tokens: nat, cumulative: nat, attempts: nat): (nat, nat)
    decreases attempts
  {
    if attempts == 0 then (tokens, cumulative)
    else
      var t := TokensOf(EncodedLength(envelope, tokens, cumulative));
      var c := CumulativeTokens(previous, t);
      if t == tokens && c == cumulative then (t, c) else Settle(envelope, previous, t, c, attempts - 1)
  }

  function Measured(envelope: nat, used: BudgetUsed, previous: BudgetUsed, bytes: nat): BudgetUsed {
    var counts := Settle(envelope, previous, used.contextTokens, used.cumulativeContextTokens, 8);
    used.(sourceBytes := bytes, cumulativeSourceBytes := CumulativeBytes(previous, bytes),
          contextTokens := counts.0, cumulativeContextTokens := counts.1)
  }

  lemma {:induction false} SettleIsConsistent(envelope: nat, previous: BudgetUsed, w0: nat, k: nat, t: nat, c: nat)
    requires envelope < TWO_62 && previous.Small() && 2 <= w0 <= 38 && k <= 8
    requires Digits(t) + Digits(c) == WidthAfter(envelope, previous, w0, k)
    requires k > 0 ==>
                 t == NextTokens(envelope, WidthAfter(envelope, previous, w0, k - 1))
                 && c == CumulativeTokens(previous, t)
    ensures var counts := Settle(envelope, previous, t, c, 8 - k); Consistent(envelope, previous, counts.0, counts.1)
    decreases 8 - k
  {
    if k == 8 {
      SettledStaysSettled(envelope, previous, w0, 7);
    } else {
      var t' := TokensOf(EncodedLength(envelope, t, c));
      SettleIsConsistent(envelope, previous, w0, k + 1, t', CumulativeTokens(previous, t'));
    }
  }

  /** From any earlier counts, eight attempts always reach a fixpoint. */
  lemma MeasuredIsConsistent(envelope: nat, used: BudgetUsed, previous: BudgetUsed, bytes: nat)
    requires envelope < TWO_62 && previous.Small() && used.contextTokens < 2 * TWO_62
    requires used.cumulativeContextTokens < 2 * TWO_62
    ensures var m := Measured(envelope, used, previous, bytes);
            Consistent(envelope, previous, m.contextTokens, m.cumulativeContextTokens)
  {
    Pow10Of19();
    DigitsBound(used.contextTokens, 19);
    DigitsBound(used.cumulativeContextTokens, 19);
    SettleIsConsistent(envelope, previous, Digits(used.contextTokens) + Digits(used.cumulativeContextTokens), 0,
                       used.contextTokens, used.cumulativeContextTokens);
  }

  /** `measurePack`. */
  method Measure(envelope: nat, used: BudgetUsed, previous: BudgetUsed, bytes: nat) returns (measured: BudgetUsed)
    requires envelope < TWO_62 && previous.Small() && used.contextTokens < 2 * TWO_62
    requires used.cumulativeContextTokens < 2 * TWO_62
    ensures Consistent(envelope, previous, measured.contextTokens, measured.cumulativeContextTokens)
    ensures measured == Measured(envelope, used, previous, bytes)
  {
    MeasuredIsConsistent(envelope, used, previous, bytes);
    measured := used.(sourceBytes := bytes, cumulativeSourceBytes := CumulativeBytes(previous, bytes));
    for attempt := 0 to 8
      invariant measured == used.(sourceBytes := bytes, cumulativeSourceBytes := CumulativeBytes(previous, bytes),
          contextTokens := measured.contextTokens, cumulativeContextTokens := measured.cumulativeContextTokens)
      invariant Settle(envelope, previous, used.contextTokens, used.cumulativeContextTokens, 8)
             == Settle(envelope, previous, measured.contextTokens, measured.cumulativeContextTokens, 8 - attempt)
    {
      var tokens := TokensOf(EncodedLength(envelope, measured.contextTokens, measured.cumulativeContextTokens));
      var cumulative := CumulativeTokens(previous, tokens);
      if measured.contextTokens == tokens && measured.cumulativeContextTokens == cumulative {
        return;
      }
      measured := measured.(contextTokens := tokens, cumulativeContextTokens := cumulative);
    }
  }

  /** There can be two fixpoints, so the counts of a pack depend on where the iteration
      starts, and a replay must repeat the same starts to arrive at the same counts. */
  lemma FixpointIsNotUnique(envelope: nat, previous: BudgetUsed, x: nat, y: nat)
    requires envelope == 3990 && previous == NOTHING_USED && x == 999 && y == 1000
    ensures Consistent(envelope, previous, x, x)
    ensures Consistent(envelope, previous, y, y)
  {
    ThreeAndFourDigits(x, y);
  }

  lemma {:induction false} ThreeAndFourDigits(x: nat, y: nat)
    requires 100 <= x < 1000 <= y < 10_000
    ensures Digits(x) == 3 && Digits(y) == 4
  {
    assert Digits(x / 10 / 10) == 1 && Digits(x / 10) == 2;
    assert Digits(y / 10 / 10 / 10) == 1 && Digits(y / 10 / 10) == 2 && Digits(y / 10) == 3;
  }

  /** What `VerifyDigest` demands besides consistency: the cumulative counts cover the current
      ones exactly when the previous cumulative count covers what the two packs share. */
  lemma CumulativeCoversCurrent(envelope: nat, previous: BudgetUsed, t: nat, c: nat)
    requires Consistent(envelope, previous, t, c)
    ensures c >= t <==> || previous.cumulativeContextTokens == 0
                        || previous.cumulativeContextTokens >= previous.contextTokens
                        || previous.cumulativeContextTokens >= t
  {
  }
}
