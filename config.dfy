/** The walk view's configuration and the split of the screen between the
    source pane and the assembly pane (src/config.rs). Reading the
    configuration file is not part of this model. */
module Config {
  import opened Basics

  /** `tui::layout::Constraint::Ratio` */
  datatype Constraint = Ratio(num: u32, den: u32)

  /** `WalkConfig`: the share of the screen, in percent, given to assembly. */
  datatype WalkConfig = WalkConfig(asmPrecent: Option<u32>)

  /** The share used when the configuration does not give one. */
  const DEFAULT_ASM_PERCENT: u32 := 53

  /** `u32::checked_sub` */
  function CheckedSub(a: u32, b: u32): (r: Option<u32>)
    ensures r.Some? <==> b <= a
    ensures r.Some? ==> r.value + b == a
  {
    if b <= a then Some(a - b) else None
  }

  function DigitChar(d: nat): (c: char)
    requires d < 10
    ensures '0' <= c <= '9'
  {
    "0123456789"[d]
  }

  predicate AllDigits(s: string) {
    forall i :: 0 <= i < |s| ==> '0' <= s[i] <= '9'
  }

  /** The value a string of decimal digits denotes. */
  function DecimalValue(s: string): nat
    requires AllDigits(s)
  {
    if s == [] then 0
    else DecimalValue(s[..|s| - 1]) * 10 + (s[|s| - 1] as int - '0' as int)
  }

  /** The decimal text `{}` prints for an unsigned integer. */
  function DecimalString(n: nat): (s: string)
    ensures |s| >= 1 && AllDigits(s)
    ensures s[0] == '0' ==> n == 0
  {
    if n < 10 then [DigitChar(n)] else DecimalString(n / 10) + [DigitChar(n % 10)]
  }

  /** The printed digits denote the number printed. */
  lemma {:induction false} DecimalRoundTrip(n: nat)
    ensures DecimalValue(DecimalString(n)) == n
  {
    var s := DecimalString(n);
    if n >= 10 {
      DecimalRoundTrip(n / 10);
      assert s[..|s| - 1] == DecimalString(n / 10);
    }
  }

  /** `WalkConfig::get_layout`: the left (source) share is what remains of
      100 after the assembly share; a share above 100 is refused. */
  function GetLayout(cfg: WalkConfig): (r: Result<seq<Constraint>, string>)
    ensures var p := cfg.asmPrecent.GetOr(DEFAULT_ASM_PERCENT);
      && (r.Err? <==> p > 100)
      && (r.Err? ==> r.error == "asm_percent must be ≤ 100 (got " + DecimalString(p) + ")")
      && (r.Ok? ==> |r.value| == 2 && r.value[1] == Ratio(p, 100) && r.value[0].den == 100
                    && r.value[0].num + r.value[1].num == 100)
  {
    var p := cfg.asmPrecent.GetOr(DEFAULT_ASM_PERCENT);
    match CheckedSub(100, p)
    case None => Err("asm_percent must be ≤ 100 (got " + DecimalString(p) + ")")
    case Some(left) => Ok([Ratio(left, 100), Ratio(p, 100)])
  }

  /** Without a configured share the panes split 47 : 53. */
  lemma DefaultLayout()
    ensures GetLayout(WalkConfig(None)) == Ok([Ratio(47, 100), Ratio(53, 100)])
  {
    assert CheckedSub(100, 53) == Some(47);
  }

  /** Both extremes are accepted: all assembly, or all source. */
  lemma LayoutBoundaries()
    ensures GetLayout(WalkConfig(Some(100))) == Ok([Ratio(0, 100), Ratio(100, 100)])
    ensures GetLayout(WalkConfig(Some(0))) == Ok([Ratio(100, 100), Ratio(0, 100)])
    ensures GetLayout(WalkConfig(Some(101))).Err?
  {
  }
}
