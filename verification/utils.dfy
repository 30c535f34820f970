/** The three-valued status rendering used by the health report (app.utils.utils.pass_fail). */
module Utils {
  import opened Wrappers

  /**
   * Renders an optional boolean: a known true is "PASS", a known false is "FAIL"
   * and an absent value (Python's None) is "UNKNOWN".
   */
  function PassFail(b: Option<bool>): (r: string)
    ensures r == "PASS" <==> b == Some(true)
    ensures r == "FAIL" <==> b == Some(false)
    ensures r == "UNKNOWN" <==> b == None
  {
    match b
    case Some(true) => "PASS"
    case Some(false) => "FAIL"
    case None => "UNKNOWN"
  }

  /** Different inputs never render the same way, so the rendering can be read back. */
  lemma PassFailInjective(a: Option<bool>, b: Option<bool>)
    requires PassFail(a) == PassFail(b)
    ensures a == b
  {
  }
}
