/** The client's handicap display: a negative ("plus") handicap is shown
    with a leading "+" and its absolute value, any other value as it is.
    Handicap indices carry one decimal, so a handicap is given here as a
    whole number of tenths; JavaScript prints such a number with its
    shortest decimal form, "12" for 12.0 and "12.3" for 12.3. */
module Formatters {
  import opened Numeric
  import opened Text

  /** The shortest decimal form of tenths / 10 for tenths >= 0. */
  function RenderTenths(tenths: nat): (s: string)
    ensures |s| > 0 && IsDigit(s[0])
  {
    if tenths % 10 == 0 then NatToString(tenths / 10)
    else NatToString(tenths / 10) + "." + [DigitChar(tenths % 10)]
  }

  /** formatHandicapIndex: null stays null; a negative value becomes "+"
      and its absolute value; zero and positive values print unsigned. */
  function FormatHandicapIndex(handicap: Option<int>): (r: Option<string>)
    ensures r.None? <==> handicap.None?
    ensures r.Some? ==> |r.value| > 0 && r.value[0] != '-'
    ensures r.Some? ==> (r.value[0] == '+' <==> handicap.value < 0)
  {
    match handicap
    case None => None
    case Some(h) => if h < 0 then Some("+" + RenderTenths(-h)) else Some(RenderTenths(h))
  }

  /** Reading an unsigned decimal with at most one decimal digit, in
      tenths. */
  function ReadTenths(s: string): Option<int> {
    if IsDigits(s) then Some(10 * ParseNat(s))
    else if |s| >= 3 && s[|s| - 2] == '.' && IsDigits(s[..|s| - 2]) && IsDigit(s[|s| - 1]) then
      Some(10 * ParseNat(s[..|s| - 2]) + DigitValue(s[|s| - 1]))
    else None
  }

  /** Reading a displayed handicap back: a leading "+" marks a plus
      handicap. */
  function ReadHandicap(s: string): Option<int> {
    if s != [] && s[0] == '+' then
      (var t := ReadTenths(s[1..]); if t.None? then None else Some(0 - t.value))
    else ReadTenths(s)
  }

  lemma ReadRendered(tenths: nat)
    ensures ReadTenths(RenderTenths(tenths)) == Some(tenths)
  {
    var q, d := tenths / 10, tenths % 10;
    assert tenths == 10 * q + d;
    ParseNatToString(q);
    if d != 0 {
      ReadWithDecimal(NatToString(q), d);
    }
  }

  /** Digits, a point and one digit read as ten times the digits plus
      that digit. */
  lemma ReadWithDecimal(whole: string, d: nat)
    requires IsDigits(whole) && d < 10
    ensures ReadTenths(whole + "." + [DigitChar(d)]) == Some(10 * ParseNat(whole) + d)
  {
    var s := whole + "." + [DigitChar(d)];
    assert s[|whole|] == '.' && !IsDigit(s[|whole|]);
    assert s[..|s| - 2] == whole;
    assert s[|s| - 1] == DigitChar(d);
  }

  /** The display loses nothing: reading it back gives the handicap. */
  lemma ReadFormatted(handicap: int, shown: string)
    requires FormatHandicapIndex(Some(handicap)) == Some(shown)
    ensures ReadHandicap(shown) == Some(handicap)
  {
    if handicap < 0 {
      assert shown == "+" + RenderTenths(-handicap);
      ReadPlus(-handicap);
    } else {
      assert shown == RenderTenths(handicap);
      ReadUnsigned(handicap);
    }
  }

  lemma ReadPlus(tenths: nat)
    ensures ReadHandicap("+" + RenderTenths(tenths)) == Some(0 - tenths)
  {
    var t := RenderTenths(tenths);
    ReadRendered(tenths);
    assert ("+" + t)[1..] == t;
  }

  lemma ReadUnsigned(tenths: nat)
    ensures ReadHandicap(RenderTenths(tenths)) == Some(tenths)
  {
    ReadRendered(tenths);
  }
}
