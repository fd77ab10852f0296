/** `useMobileDetect`: classifying a user agent by case-insensitive
    substring tests, with "SSR" standing in when there is no `navigator`. */
module MobileDetect {
  import opened Results
  import opened Strings

  /** The flags `getMobileDetect` computes. */
  datatype Device = Device(isMobile: bool, isDesktop: bool, isAndroid: bool, isIos: bool, isSsr: bool)

  /** `getMobileDetect(userAgent)`. */
  function GetMobileDetect(userAgent: string): (d: Device)
    ensures d.isAndroid <==> ContainsIgnoringCase(userAgent, "Android")
    ensures d.isIos <==> ContainsIgnoringCase(userAgent, "iPhone") || ContainsIgnoringCase(userAgent, "iPad")
                         || ContainsIgnoringCase(userAgent, "iPod")
    ensures d.isSsr <==> ContainsIgnoringCase(userAgent, "SSR")
    ensures d.isMobile <==> d.isAndroid || d.isIos || ContainsIgnoringCase(userAgent, "Opera Mini")
                            || ContainsIgnoringCase(userAgent, "IEMobile")
    ensures !(d.isMobile && d.isDesktop)
    ensures d.isDesktop <==> !d.isMobile && !d.isSsr
  {
    var isAndroid := ContainsIgnoringCase(userAgent, "Android");
    var isIos := ContainsIgnoringCase(userAgent, "iPhone") || ContainsIgnoringCase(userAgent, "iPad")
                 || ContainsIgnoringCase(userAgent, "iPod");
    var isOpera := ContainsIgnoringCase(userAgent, "Opera Mini");
    var isWindows := ContainsIgnoringCase(userAgent, "IEMobile");
    var isSsr := ContainsIgnoringCase(userAgent, "SSR");
    var isMobile := isAndroid || isIos || isOpera || isWindows;
    Device(isMobile, !isMobile && !isSsr, isAndroid, isIos, isSsr)
  }

  /** The upper-cased text, as the case-insensitive match sees it. */
  function UpperAll(s: string): (r: string)
    ensures |r| == |s| && forall i :: 0 <= i < |s| ==> r[i] == Upper(s[i])
  {
    seq(|s|, i requires 0 <= i < |s| => Upper(s[i]))
  }

  /** Matching ignores case: a text and its upper-cased copy contain the
      same patterns. */
  lemma MatchIgnoresCase(text: string, pattern: string)
    ensures ContainsIgnoringCase(text, pattern) <==> ContainsIgnoringCase(UpperAll(text), pattern)
  {
    var up := UpperAll(text);
    if ContainsIgnoringCase(text, pattern) {
      var at :| 0 <= at && at + |pattern| <= |text| && MatchesAt(text, pattern, at);
      assert MatchesAt(up, pattern, at);
    }
    if ContainsIgnoringCase(up, pattern) {
      var at :| 0 <= at && at + |pattern| <= |up| && MatchesAt(up, pattern, at);
      assert MatchesAt(text, pattern, at);
    }
  }

  /** So the classification does not depend on letter case. */
  lemma ClassificationIgnoresCase(userAgent: string)
    ensures GetMobileDetect(UpperAll(userAgent)) == GetMobileDetect(userAgent)
  {
    MatchIgnoresCase(userAgent, "Android");
    MatchIgnoresCase(userAgent, "iPhone");
    MatchIgnoresCase(userAgent, "iPad");
    MatchIgnoresCase(userAgent, "iPod");
    MatchIgnoresCase(userAgent, "Opera Mini");
    MatchIgnoresCase(userAgent, "IEMobile");
    MatchIgnoresCase(userAgent, "SSR");
  }

  /** A user agent naming an iPhone anywhere is mobile and iOS, never
      desktop. */
  lemma IPhoneIsMobile(prefix: string, suffix: string)
    ensures var d := GetMobileDetect(prefix + "iPhone" + suffix);
            d.isIos && d.isMobile && !d.isDesktop
  {
    assert MatchesAt("iPhone", "iPhone", 0);
    ContainsInContext(prefix, "iPhone", suffix, "iPhone");
  }

  /** The hook's state: every flag is `undefined` until the effect runs. */
  datatype Detected = Detected(isMobile: Option<bool>, isDesktop: Option<bool>, isAndroid: Option<bool>,
                               isIos: Option<bool>, isSsr: Option<bool>)

  const Undetected := Detected(None, None, None, None, None)

  /** `typeof navigator === "undefined" ? "SSR" : navigator.userAgent`. */
  function UserAgent(navigatorUserAgent: Option<string>): (ua: string)
    ensures navigatorUserAgent.None? ==> ua == "SSR"
    ensures navigatorUserAgent.Some? ==> ua == navigatorUserAgent.value
  {
    navigatorUserAgent.GetOr("SSR")
  }

  /** `useMobileDetect()` before (`effectRan` false) and after its effect;
      an empty user agent is falsy and leaves the flags `undefined`. */
  function UseMobileDetect(navigatorUserAgent: Option<string>, effectRan: bool): (d: Detected)
    ensures !effectRan || UserAgent(navigatorUserAgent) == "" ==> d == Undetected
    ensures effectRan && UserAgent(navigatorUserAgent) != "" ==>
              var g := GetMobileDetect(UserAgent(navigatorUserAgent));
              d == Detected(Some(g.isMobile), Some(g.isDesktop), Some(g.isAndroid), Some(g.isIos), Some(g.isSsr))
  {
    var ua := UserAgent(navigatorUserAgent);
    if effectRan && ua != "" then
      var g := GetMobileDetect(ua);
      Detected(Some(g.isMobile), Some(g.isDesktop), Some(g.isAndroid), Some(g.isIos), Some(g.isSsr))
    else Undetected
  }

  /** Without `navigator` the device is SSR: neither mobile nor desktop. */
  lemma ServerSideFallback()
    ensures UseMobileDetect(None, true) == Detected(Some(false), Some(false), Some(false), Some(false), Some(true))
  {
    assert MatchesAt("SSR", "SSR", 0);
  }
}
