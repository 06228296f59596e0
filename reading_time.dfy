/** ReadingTimePipe: the reading time line under an article, in the
    language the page is shown in. The current language is a parameter;
    the minutes are an integer or absent (null or undefined). */
module ReadingTime {
  import opened Common
  import JavaString

  /** `!minutes || minutes <= 1 ? 1 : minutes`: absent, zero, negative and
      one minute all show as one. */
  function ShownMinutes(minutes: Option<int>): (m: nat)
    ensures m >= 1
  {
    if minutes.None? || minutes.value == 0 || minutes.value <= 1 then 1 else minutes.value
  }

  function Suffix(lang: string): (s: string)
    ensures |s| >= 1 && s[0] == ' '
  {
    if lang == "pt" then " min. de leitura"
    else if lang == "en" then " min read"
    else " Min. Lesezeit"
  }

  /** transform */
  function Transform(minutes: Option<int>, lang: string): (r: string)
    ensures |r| > |JavaString.NatToString(ShownMinutes(minutes))|
  {
    JavaString.NatToString(ShownMinutes(minutes)) + Suffix(lang)
  }

  /** The clamp: at least one minute is shown, and a value above one is
      shown unchanged. */
  lemma ClampSpec(minutes: Option<int>)
    ensures (minutes.None? || minutes.value <= 1) <==> ShownMinutes(minutes) == 1
    ensures minutes.Some? && minutes.value > 1 ==> ShownMinutes(minutes) == minutes.value
    ensures ShownMinutes(Some(ShownMinutes(minutes))) == ShownMinutes(minutes)
  {
  }

  /** The three wordings: Portuguese for "pt", English for "en", German for
      every other value, "de" included. */
  lemma Wording(minutes: Option<int>, lang: string)
    ensures var n := JavaString.NatToString(ShownMinutes(minutes));
      && (lang == "pt" <==> Transform(minutes, lang) == n + " min. de leitura")
      && (lang == "en" <==> Transform(minutes, lang) == n + " min read")
      && (lang != "pt" && lang != "en" <==> Transform(minutes, lang) == n + " Min. Lesezeit")
  {
    var n := JavaString.NatToString(ShownMinutes(minutes));
    var r := Transform(minutes, lang);
    assert r[|n|..] == Suffix(lang);
    if lang != "pt" {
      assert (n + " min. de leitura")[|n|..] == " min. de leitura";
    }
    if lang != "en" {
      assert (n + " min read")[|n|..] == " min read";
    }
    if lang == "pt" || lang == "en" {
      assert (n + " Min. Lesezeit")[|n|..] == " Min. Lesezeit";
    }
  }

  /** The text starts with the shown minutes in decimal, ended by a space:
      the number can be read back from the display. */
  lemma ReadBack(minutes: Option<int>, lang: string)
    ensures var r := Transform(minutes, lang);
      var k := |JavaString.NatToString(ShownMinutes(minutes))|;
      && k < |r| && r[k] == ' '
      && JavaString.IsDigits(r[..k]) && JavaString.DigitsValue(r[..k]) == ShownMinutes(minutes)
  {
    var n := JavaString.NatToString(ShownMinutes(minutes));
    assert Transform(minutes, lang)[..|n|] == n;
    JavaString.NatToStringRoundTrip(ShownMinutes(minutes));
  }

  /** Two displays that read the same show the same minutes, whatever
      their languages. */
  lemma {:induction false} SameTextSameMinutes(m1: Option<int>, l1: string, m2: Option<int>, l2: string)
    requires Transform(m1, l1) == Transform(m2, l2)
    ensures ShownMinutes(m1) == ShownMinutes(m2)
  {
    var r := Transform(m1, l1);
    var n1 := JavaString.NatToString(ShownMinutes(m1));
    var n2 := JavaString.NatToString(ShownMinutes(m2));
    assert r[..|n1|] == n1 && r[|n1|] == ' ';
    assert r[..|n2|] == n2 && r[|n2|] == ' ';
    assert |n1| == |n2|;
    JavaString.NatToStringInjective(ShownMinutes(m1), ShownMinutes(m2));
  }
}
