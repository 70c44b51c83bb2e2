/** `format_days` (src/vpn_bot.py:397-405; an identical earlier definition
    at 385-394 is shadowed): a number of days with the Russian noun form
    that agrees with it. */
module Formatting {
  import opened Text

  const Singular: string := "день"
  const Paucal: string := "дня"
  const Plural: string := "дней"

  /** The noun form for a count: `день` after a last digit 1, `дня` after
      2 to 4, `дней` otherwise and for every count ending in 11 to 14.
      Python's `%` by a positive number agrees with Dafny's. */
  function DayWord(days: int): (word: string)
    ensures word == Singular || word == Paucal || word == Plural
  {
    if days % 10 == 1 && days % 100 != 11 then Singular
    else if 2 <= days % 10 <= 4 && (days % 100 < 10 || days % 100 >= 20) then Paucal
    else Plural
  }

  function FormatDays(days: int): string {
    IntToString(days) + " " + DayWord(days)
  }

  /** The form depends only on the last two digits: a hundred more days
      take the same form. */
  lemma DayWordPeriodic(days: int)
    ensures DayWord(days + 100) == DayWord(days)
  {
    assert (days + 100) % 100 == days % 100;
    assert (days + 100) % 10 == days % 10;
  }

  /** Eleven to fourteen always take `дней`, whatever their last digit. */
  lemma TeensArePlural(days: int)
    requires 11 <= days % 100 <= 14
    ensures DayWord(days) == Plural
  {
    assert days % 10 == days % 100 - 10 by {
      assert days == 100 * (days / 100) + days % 100;
      assert days == 10 * (10 * (days / 100) + 1) + (days % 100 - 10);
    }
  }

  /** Outside the teens the last digit decides: 1 gives `день`, 2 to 4
      give `дня`, anything else `дней`. */
  lemma LastDigitDecides(days: int)
    requires !(11 <= days % 100 <= 14)
    ensures days % 10 == 1 <==> DayWord(days) == Singular
    ensures 2 <= days % 10 <= 4 <==> DayWord(days) == Paucal
  {
    assert days == 100 * (days / 100) + days % 100;
    assert days % 100 == 10 * ((days % 100) / 10) + days % 10 by {
      assert days == 10 * (10 * (days / 100) + (days % 100) / 10) + (days % 100) % 10;
    }
    assert (days % 100) / 10 == 1 ==> 15 <= days % 100 <= 19 || days % 10 == 0;
  }

  /** The text is the count and the noun, as two words: the count reads
      back as the number of days. */
  lemma FormatDaysWords(days: int)
    ensures Split(FormatDays(days), ' ') == [IntToString(days), DayWord(days)]
    ensures days >= 0 ==> IsDigits(IntToString(days)) && DigitsValue(IntToString(days)) == days
  {
    var n := IntToString(days);
    var w := DayWord(days);
    assert ' ' !in n by {
      var digits := if days < 0 then NatToString(-days) else NatToString(days);
      assert forall i :: 0 <= i < |digits| ==> IsDigit(digits[i]);
      assert n == digits || n == "-" + digits;
    }
    assert ' ' !in w;
    SplitOnceOf(n, ' ', w);
    assert FormatDays(days) == n + [' '] + w;
  }
}
