/** The fee a stay costs under a price rule (`calcAmount`). Money is in integer cents and
    instants in integer milliseconds, so the source's final rounding to two decimals
    changes nothing. */
module Pricing {
  import opened Wrappers
  import opened Text

  /** A row of the price table. `fractionMinutes` is 0 when the stored value is 0 or
      missing; `dailyMax` is None when the stored cap is null or the empty string. */
  datatype PriceRule = PriceRule(
    id: int,
    name: string,
    active: bool,
    firstHourValue: int,
    fractionMinutes: int,
    fractionValue: int,
    dailyMax: Option<int>)

  /** What `calcAmount` returns. */
  datatype Fee = Fee(amount: int, desc: string, minutes: int)

  /** The fee before the daily cap. */
  datatype Charge = Charge(amount: int, desc: string)

  const MillisPerMinute: int := 60000
  const FirstHourMinutes: int := 60
  const DefaultFractionMinutes: int := 15
  const CapMarker: string := " (teto diário)"

  /** Whole minutes between the two instants, rounded down, and never less than one. */
  function BilledMinutes(entryAt: int, exitAt: int): (m: int)
    ensures m >= 1
    ensures exitAt - entryAt >= MillisPerMinute ==>
      m * MillisPerMinute <= exitAt - entryAt < (m + 1) * MillisPerMinute
    ensures exitAt - entryAt < MillisPerMinute ==> m == 1
  {
    var whole := (exitAt - entryAt) / MillisPerMinute;
    if whole < 1 then 1 else whole
  }

  /** The least integer not below a / b (JavaScript's `Math.ceil(a / b)`). */
  function CeilDiv(a: int, b: int): (q: int)
    requires b != 0
    ensures b > 0 ==> (q - 1) * b < a <= q * b
    ensures b < 0 ==> q * b <= a < (q - 1) * b
  {
    if b > 0 then CeilDivPos(a, b)
    else
      var q := CeilDivPos(-a, -b);
      assert (q - 1) * b == -((q - 1) * -b) && q * b == -(q * -b);
      q
  }

  function CeilDivPos(a: int, b: int): (q: int)
    requires b > 0
    ensures (q - 1) * b < a <= q * b
  {
    var f := a / b;
    assert a == f * b + a % b;
    if a % b == 0 then
      assert (f - 1) * b == f * b - b;
      f
    else
      assert (f + 1) * b == f * b + b;
      f + 1
  }

  /** `rule.fractionMinutes || 15`. */
  function FractionLength(rule: PriceRule): (len: int)
    ensures rule.fractionMinutes == 0 ==> len == DefaultFractionMinutes
    ensures rule.fractionMinutes != 0 ==> len == rule.fractionMinutes
    ensures len != 0
    ensures len > 0 <==> rule.fractionMinutes >= 0
  {
    if rule.fractionMinutes == 0 then DefaultFractionMinutes else rule.fractionMinutes
  }

  /** The number of fractions charged after the first hour, every started one counted:
      `n` fractions cover the extra minutes and `n - 1` do not (with the inequalities
      reversed for a negative fraction length). */
  function Fractions(rule: PriceRule, minutes: int): (n: int)
    ensures var len := FractionLength(rule);
      len > 0 ==> (n - 1) * len < minutes - FirstHourMinutes <= n * len
    ensures var len := FractionLength(rule);
      len < 0 ==> n * len <= minutes - FirstHourMinutes < (n - 1) * len
  {
    CeilDiv(minutes - FirstHourMinutes, FractionLength(rule))
  }

  /** The charge before the cap, with its description, which starts with the rule's name:
      the first-hour price up to an hour, plus the price of every fraction after it. */
  function BaseCharge(rule: PriceRule, minutes: int): (c: Charge)
    ensures |c.desc| > |rule.name| + 2 && c.desc[..|rule.name| + 2] == rule.name + ": "
    ensures minutes <= FirstHourMinutes ==> c.amount == rule.firstHourValue
    ensures minutes > FirstHourMinutes ==>
      c.amount == rule.firstHourValue + Fractions(rule, minutes) * rule.fractionValue
    ensures minutes > FirstHourMinutes ==>
      c.desc == rule.name + ": 1h + " + IntToString(Fractions(rule, minutes)) + "x fração"
  {
    if minutes <= FirstHourMinutes then
      Charge(rule.firstHourValue, rule.name + ": até 1h")
    else
      var n := Fractions(rule, minutes);
      Charge(rule.firstHourValue + n * rule.fractionValue,
             rule.name + ": 1h + " + IntToString(n) + "x fração")
  }

  /** `calcAmount(rule, entryAt, exitAt)`. */
  function CalcAmount(rule: PriceRule, entryAt: int, exitAt: int): (fee: Fee)
    ensures fee.minutes >= 1
    ensures rule.dailyMax.Some? ==> fee.amount <= rule.dailyMax.value
    ensures rule.dailyMax.None? ==> fee.amount == BaseCharge(rule, fee.minutes).amount
  {
    var minutes := BilledMinutes(entryAt, exitAt);
    var base := BaseCharge(rule, minutes);
    if rule.dailyMax.Some? && base.amount > rule.dailyMax.value then
      Fee(rule.dailyMax.value, base.desc + CapMarker, minutes)
    else
      Fee(base.amount, base.desc, minutes)
  }

  predicate EndsWith(s: string, suffix: string) {
    |suffix| <= |s| && s[|s| - |suffix|..] == suffix
  }

  /** The minutes reported are the elapsed whole minutes, at least one, even when the exit
      is at or before the entry. */
  lemma FeeMinutes(rule: PriceRule, entryAt: int, exitAt: int)
    ensures var m := CalcAmount(rule, entryAt, exitAt).minutes;
      && m >= 1
      && (exitAt - entryAt < MillisPerMinute ==> m == 1)
      && (exitAt - entryAt >= MillisPerMinute ==>
            m * MillisPerMinute <= exitAt - entryAt < (m + 1) * MillisPerMinute)
  {
  }

  /** Up to an hour, the charge before the cap is the flat first-hour price. */
  lemma FirstHourIsFlat(rule: PriceRule, minutes: int)
    requires minutes <= FirstHourMinutes
    ensures BaseCharge(rule, minutes).amount == rule.firstHourValue
    ensures BaseCharge(rule, minutes).desc == rule.name + ": até 1h"
  {
  }

  /** After the first hour every started fraction is charged in full: `n` fractions cover
      the extra minutes and `n - 1` do not; with a positive fraction length, at least one
      is charged. A fraction length of 0 falls back to 15 minutes. */
  lemma FractionsRoundUp(rule: PriceRule, minutes: int)
    requires minutes > FirstHourMinutes
    requires rule.fractionMinutes >= 0
    ensures var n := Fractions(rule, minutes);
      var len := if rule.fractionMinutes == 0 then 15 else rule.fractionMinutes;
      && (n - 1) * len < minutes - FirstHourMinutes <= n * len
      && n >= 1
      && BaseCharge(rule, minutes).amount == rule.firstHourValue + n * rule.fractionValue
  {
    MulMonotonic(Fractions(rule, minutes), 0, FractionLength(rule));
  }

  /** The daily cap: with a cap the fee is the smaller of the charge and the cap, and the
      cap marker is appended exactly when the cap lowered it; without one the charge is
      returned unchanged with its own description. */
  lemma DailyCap(rule: PriceRule, entryAt: int, exitAt: int)
    ensures var fee := CalcAmount(rule, entryAt, exitAt);
      var base := BaseCharge(rule, fee.minutes);
      && (rule.dailyMax.Some? ==>
            fee.amount == (if base.amount <= rule.dailyMax.value then base.amount else rule.dailyMax.value))
      && (rule.dailyMax.Some? ==>
            fee.desc == (if base.amount > rule.dailyMax.value then base.desc + CapMarker else base.desc))
      && (rule.dailyMax.None? ==> fee.amount == base.amount && fee.desc == base.desc)
      && (EndsWith(fee.desc, CapMarker) <==> rule.dailyMax.Some? && base.amount > rule.dailyMax.value)
  {
    var fee := CalcAmount(rule, entryAt, exitAt);
    var base := BaseCharge(rule, fee.minutes);
    BaseDescEnding(rule, fee.minutes);
    if rule.dailyMax.Some? && base.amount > rule.dailyMax.value {
      assert fee.desc == base.desc + CapMarker;
      assert fee.desc[|fee.desc| - |CapMarker|..] == CapMarker;
    } else {
      assert fee.desc == base.desc;
      assert CapMarker[|CapMarker| - 1] == ')';
      EndsWithLastChar(fee.desc, CapMarker);
    }
  }

  lemma EndsWithLastChar(s: string, suffix: string)
    requires |suffix| > 0
    ensures EndsWith(s, suffix) ==> s[|s| - 1] == suffix[|suffix| - 1]
  {
    if EndsWith(s, suffix) {
      assert s[|s| - 1] == s[|s| - |suffix|..][|suffix| - 1];
    }
  }

  /** The uncapped description ends in "h" (up to an hour) or "o" (after it), never in the
      closing parenthesis of the cap marker. */
  lemma BaseDescEnding(rule: PriceRule, minutes: int)
    ensures var d := BaseCharge(rule, minutes).desc;
      |d| > 0 && (d[|d| - 1] == 'h' || d[|d| - 1] == 'o')
  {
  }

  /** Rule "Padrão" of the seed data: R$ 10,00 first hour, R$ 2,00 per 15 minutes, cap R$ 30,00. */
  function StandardRule(): PriceRule {
    PriceRule(1, "Padrão", true, 1000, 15, 200, Some(3000))
  }

  /** 45 minutes cost the first hour. */
  lemma StandardRuleFortyFiveMinutes(t: int)
    ensures CalcAmount(StandardRule(), t, t + 45 * MillisPerMinute)
         == Fee(1000, "Padrão: até 1h", 45)
  {
  }

  /** 90 minutes: 30 extra minutes are two fractions. */
  lemma StandardRuleNinetyMinutes(t: int)
    ensures CalcAmount(StandardRule(), t, t + 90 * MillisPerMinute).amount == 1400
    ensures CalcAmount(StandardRule(), t, t + 90 * MillisPerMinute).minutes == 90
    ensures CalcAmount(StandardRule(), t, t + 90 * MillisPerMinute).desc == "Padrão: 1h + 2x fração"
  {
    assert Fractions(StandardRule(), 90) == 2;
    assert IntToString(2) == "2";
  }

  /** Ten hours: 36 fractions would make R$ 82,00, capped at R$ 30,00 with the marker. */
  lemma StandardRuleTenHours(t: int)
    ensures CalcAmount(StandardRule(), t, t + 600 * MillisPerMinute).amount == 3000
    ensures EndsWith(CalcAmount(StandardRule(), t, t + 600 * MillisPerMinute).desc, CapMarker)
  {
    assert Fractions(StandardRule(), 600) == 36;
    DailyCap(StandardRule(), t, t + 600 * MillisPerMinute);
  }

  /** A longer stay never costs less, provided fractions have a non-negative length and
      price (the source does not check either when a rule is created). */
  lemma FeeMonotonic(rule: PriceRule, entryAt: int, exit1: int, exit2: int)
    requires exit1 <= exit2
    requires rule.fractionMinutes >= 0 && rule.fractionValue >= 0
    ensures CalcAmount(rule, entryAt, exit1).amount <= CalcAmount(rule, entryAt, exit2).amount
  {
    var m1 := BilledMinutes(entryAt, exit1);
    var m2 := BilledMinutes(entryAt, exit2);
    MinutesMonotonic(entryAt, exit1, exit2);
    BaseChargeMonotonic(rule, m1, m2);
  }

  /** A negative fraction length, which the price form accepts, makes every fraction a
      discount: under the seed rule with a fraction of -15 minutes, 90 minutes cost
      R$ 6,00, less than the first hour alone. */
  lemma NegativeFractionLengthLowersCharge(t: int)
    ensures var rule := StandardRule().(fractionMinutes := -15);
      CalcAmount(rule, t, t + 90 * MillisPerMinute).amount == 600 < rule.firstHourValue
  {
    var rule := StandardRule().(fractionMinutes := -15);
    assert Fractions(rule, 90) == -2;
  }

  lemma MinutesMonotonic(entryAt: int, exit1: int, exit2: int)
    requires exit1 <= exit2
    ensures BilledMinutes(entryAt, exit1) <= BilledMinutes(entryAt, exit2)
  {
  }

  lemma BaseChargeMonotonic(rule: PriceRule, m1: int, m2: int)
    requires m1 <= m2
    requires rule.fractionMinutes >= 0 && rule.fractionValue >= 0
    ensures BaseCharge(rule, m1).amount <= BaseCharge(rule, m2).amount
  {
    if m2 > FirstHourMinutes {
      FractionsRoundUp(rule, m2);
      var n2 := Fractions(rule, m2);
      MulMonotonic(0, n2, rule.fractionValue);
      if m1 > FirstHourMinutes {
        var len := FractionLength(rule);
        var n1 := Fractions(rule, m1);
        CeilDivMonotonic(m1 - FirstHourMinutes, m2 - FirstHourMinutes, len);
        MulMonotonic(n1, n2, rule.fractionValue);
      }
    }
  }

  lemma CeilDivMonotonic(a1: int, a2: int, b: int)
    requires a1 <= a2 && b > 0
    ensures CeilDiv(a1, b) <= CeilDiv(a2, b)
  {
    MulMonotonic(CeilDiv(a2, b), CeilDiv(a1, b) - 1, b);
  }

  lemma MulMonotonic(x: int, y: int, k: int)
    requires k >= 0
    ensures x <= y ==> x * k <= y * k
  {
    assert y * k - x * k == (y - x) * k;
  }
}
