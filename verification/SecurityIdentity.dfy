/** Internal security keys: the canonical form "<MIC>_<code>" and the legacy form "<XX>.<code>"
    (src/common/security_identity.hpp, src/common/fixed_string.hpp). */
module SecurityIdentity {
  import opened OrderTypes

  datatype Market = NotSet | SZ | SH | BJ | HK | Unknown

  const NUL: char := '\0'
  const KEY_CAPACITY: nat := 15

  predicate NulFree(s: string) { NUL !in s }

  function Mic(market: Market): string {
    match market
    case SZ => "XSHE"
    case SH => "XSHG"
    case BJ => "BJSE"
    case HK => "XHKG"
    case _ => ""
  }

  function ParseMic(prefix: string): Option<Market> {
    if prefix == "XSHE" then Some(SZ)
    else if prefix == "XSHG" then Some(SH)
    else if prefix == "BJSE" then Some(BJ)
    else if prefix == "XHKG" then Some(HK)
    else None
  }

  function LegacyPrefix(market: Market): string {
    match market
    case SZ => "SZ"
    case SH => "SH"
    case BJ => "BJ"
    case HK => "HK"
    case _ => ""
  }

  function ParseLegacy(prefix: string): Option<Market> {
    if prefix == "SZ" then Some(SZ)
    else if prefix == "SH" then Some(SH)
    else if prefix == "BJ" then Some(BJ)
    else if prefix == "HK" then Some(HK)
    else None
  }

  /** The position of the first occurrence of a character, or the length. */
  function Find(s: string, c: char): (i: nat)
    ensures i <= |s| && forall k :: 0 <= k < i ==> s[k] != c
    ensures i < |s| ==> s[i] == c
  {
    if s == [] || s[0] == c then 0 else 1 + Find(s[1..], c)
  }

  function Split(id: string, delimiter: char): Option<(string, string)> {
    var i := Find(id, delimiter);
    if i == |id| || i == 0 || i + 1 >= |id| then None else Some((id[..i], id[i + 1..]))
  }

  /** What a fixed string of the key size shows after assignment: truncated to its capacity and cut at the first NUL. */
  function Shown(s: string): string {
    var kept := if |s| <= KEY_CAPACITY then s else s[..KEY_CAPACITY];
    kept[..Find(kept, NUL)]
  }

  function Parse(id: string): Option<(Market, string)> {
    match Split(id, '_')
    case Some((prefix, code)) =>
      (match ParseMic(prefix) case Some(m) => Some((m, code)) case None => None)
    case None =>
      match Split(id, '.')
      case Some((prefix, code)) =>
        (match ParseLegacy(prefix) case Some(m) => Some((m, code)) case None => None)
      case None => None
  }

  function Build(market: Market, code: string): Option<string> {
    if Mic(market) == "" || code == "" || |code| > KEY_CAPACITY - |Mic(market)| - 1 then None
    else Some(Shown(Mic(market) + "_" + code))
  }

  function Normalize(id: string): Option<string> {
    match Parse(id)
    case Some((market, code)) => Build(market, code)
    case None => None
  }

  /** The buffer-filling loops of the key builder. */
  method BuildInPlace(market: Market, code: string) returns (id: Option<string>)
    ensures id == Build(market, code)
  {
    hide Shown, Mic;
    var prefix := Mic(market);
    if prefix == "" {
      return None;
    }
    if code == "" || |code| > KEY_CAPACITY - |prefix| - 1 {
      return None;
    }
    var buffer := new char[KEY_CAPACITY + 1](_ => NUL);
    for i := 0 to |prefix|
      invariant forall j :: 0 <= j < i ==> buffer[j] == prefix[j]
    {
      buffer[i] := prefix[i];
    }
    var n := |prefix|;
    buffer[n] := '_';
    for i := 0 to |code|
      invariant forall j :: 0 <= j < n ==> buffer[j] == prefix[j]
      invariant buffer[n] == '_'
      invariant forall j :: 0 <= j < i ==> buffer[n + 1 + j] == code[j]
    {
      buffer[n + 1 + i] := code[i];
    }
    assert buffer[..n + 1 + |code|] == prefix + "_" + code;
    id := Some(Shown(buffer[..n + 1 + |code|]));
  }

  // ---------- Round trips ----------

  lemma FindFirst(a: string, c: char, b: string)
    requires c !in a
    ensures Find(a + [c] + b, c) == |a|
  {
    var s := a + [c] + b;
    var i := Find(s, c);
    assert forall k :: 0 <= k < |a| ==> s[k] == a[k];
    assert s[|a|] == c;
  }

  lemma SplitOfJoined(prefix: string, delimiter: char, code: string)
    requires prefix != "" && code != "" && delimiter !in prefix
    ensures Split(prefix + [delimiter] + code, delimiter) == Some((prefix, code))
  {
    FindFirst(prefix, delimiter, code);
    var s := prefix + [delimiter] + code;
    assert s[..|prefix|] == prefix && s[|prefix| + 1..] == code;
  }

  lemma ShownIsWhole(s: string)
    requires NulFree(s) && |s| <= KEY_CAPACITY
    ensures Shown(s) == s
  {
  }

  lemma MicFacts(market: Market)
    requires Mic(market) != ""
    ensures |Mic(market)| == 4 && '_' !in Mic(market) && NulFree(Mic(market)) && ParseMic(Mic(market)) == Some(market)
    ensures |LegacyPrefix(market)| == 2 && '.' !in LegacyPrefix(market) && '_' !in LegacyPrefix(market)
    ensures ParseLegacy(LegacyPrefix(market)) == Some(market)
  {
  }

  /** A built key is never truncated and parses back to its market and code. */
  lemma ParseBuild(market: Market, code: string)
    requires NulFree(code) && Build(market, code).Some?
    ensures Build(market, code).value == Mic(market) + "_" + code
    ensures Parse(Build(market, code).value) == Some((market, code))
  {
    MicFacts(market);
    ShownIsWhole(Mic(market) + "_" + code);
    SplitOfJoined(Mic(market), '_', code);
  }

  lemma BuildIsInjective(m1: Market, c1: string, m2: Market, c2: string)
    requires NulFree(c1) && NulFree(c2) && Build(m1, c1).Some? && Build(m1, c1) == Build(m2, c2)
    ensures m1 == m2 && c1 == c2
  {
    ParseBuild(m1, c1);
    ParseBuild(m2, c2);
  }

  lemma ParsedCodeIsNulFree(id: string)
    requires NulFree(id) && Parse(id).Some?
    ensures NulFree(Parse(id).value.1)
  {
  }

  lemma NormalizeIsIdempotent(id: string)
    requires NulFree(id) && Normalize(id).Some?
    ensures Normalize(Normalize(id).value) == Normalize(id)
  {
    var (market, code) := Parse(id).value;
    ParsedCodeIsNulFree(id);
    ParseBuild(market, code);
  }

  function Legacy(market: Market, code: string): string {
    LegacyPrefix(market) + "." + code
  }

  /** A legacy key is read as such exactly when its code has no underscore before its last character. */
  lemma ParseLegacyExactly(market: Market, code: string)
    requires Mic(market) != "" && code != ""
    ensures Parse(Legacy(market, code)) == Some((market, code)) <==> Find(code, '_') + 1 >= |code|
    ensures Parse(Legacy(market, code)).Some? <==> Find(code, '_') + 1 >= |code|
  {
    hide Find;
    MicFacts(market);
    SplitOfJoined(LegacyPrefix(market), '.', code);
    UnderscoreInLegacy(market, code);
  }

  /** Where the underscore split of a legacy key falls: inside the code, and then its prefix is no MIC. */
  lemma UnderscoreInLegacy(market: Market, code: string)
    requires Mic(market) != "" && code != ""
    ensures var split := Split(Legacy(market, code), '_');
            if Find(code, '_') + 1 >= |code| then split.None? else split.Some? && ParseMic(split.value.0).None?
  {
    hide Find, Split, ParseMic, Mic, LegacyPrefix, ParseLegacy;
    MicFacts(market);
    var prefix := LegacyPrefix(market) + ".";
    UnderscoreAfterDot(prefix, code);
    if Find(code, '_') + 1 < |code| {
      DottedIsNoMic(Split(prefix + code, '_').value.0);
    }
  }

  lemma UnderscoreAfterDot(prefix: string, code: string)
    requires |prefix| == 3 && prefix[2] == '.' && '_' !in prefix && code != ""
    ensures var split := Split(prefix + code, '_');
            if Find(code, '_') + 1 >= |code| then split.None?
            else split.Some? && |split.value.0| > 2 && split.value.0[2] == '.'
  {
    FindUnderscore(prefix, code);
    hide Find;
    assert (prefix + code)[2] == '.';
  }

  lemma DottedIsNoMic(prefix: string)
    requires |prefix| > 2 && prefix[2] == '.'
    ensures ParseMic(prefix).None?
  {
  }

  lemma FindUnderscore(prefix: string, code: string)
    requires '_' !in prefix
    ensures Find(prefix + code, '_') == |prefix| + Find(code, '_')
  {
    var i := Find(code, '_');
    if i < |code| {
      assert prefix + code == (prefix + code[..i]) + ['_'] + code[i + 1..];
      FindFirst(prefix + code[..i], '_', code[i + 1..]);
    } else {
      assert code[..i] == code;
      assert '_' !in prefix + code;
    }
  }

  /** A legacy key and a canonical key that both normalize do so to the same string exactly when they name the same
      market and code. */
  lemma LegacyAgreesWithMic(m1: Market, c1: string, m2: Market, c2: string)
    requires NulFree(c1) && NulFree(c2) && Mic(m1) != "" && Mic(m2) != "" && c1 != "" && c2 != ""
    requires Normalize(Legacy(m1, c1)).Some? && Normalize(Mic(m2) + "_" + c2).Some?
    ensures Normalize(Legacy(m1, c1)) == Normalize(Mic(m2) + "_" + c2) <==> m1 == m2 && c1 == c2
  {
    ParseLegacyExactly(m1, c1);
    MicFacts(m2);
    SplitOfJoined(Mic(m2), '_', c2);
    if Normalize(Legacy(m1, c1)) == Normalize(Mic(m2) + "_" + c2) {
      BuildIsInjective(m1, c1, m2, c2);
    }
  }

  lemma CanonicalKey(market: Market, code: string)
    requires Mic(market) != "" && code != "" && NulFree(code) && '_' !in code && |code| <= 10
    ensures Build(market, code) == Some(Mic(market) + "_" + code)
    ensures Normalize(Legacy(market, code)) == Some(Mic(market) + "_" + code)
  {
    MicFacts(market);
    ParseBuild(market, code);
    ParseLegacyExactly(market, code);
    assert Find(code, '_') == |code|;
    hide Find, Parse;
  }

  lemma MarketKey(market: Market, code: string, legacy: string, key: string)
    requires Mic(market) != "" && code != "" && NulFree(code) && '_' !in code && |code| <= 10
    requires legacy == Legacy(market, code) && key == Mic(market) + "_" + code
    ensures Build(market, code) == Normalize(legacy) == Some(key)
  {
    CanonicalKey(market, code);
    hide *;
  }

  /** The four markets, under their codes, in the canonical and in the legacy form. */
  lemma KeysOfTheMarkets()
    ensures Build(SZ, "000001") == Normalize("SZ.000001") == Some("XSHE_000001")
    ensures Build(SH, "600000") == Normalize("SH.600000") == Some("XSHG_600000")
    ensures Build(BJ, "430047") == Normalize("BJ.430047") == Some("BJSE_430047")
    ensures Build(HK, "00700") == Normalize("HK.00700") == Some("XHKG_00700")
  {
    hide Build, Normalize;
    MarketKey(SZ, "000001", "SZ.000001", "XSHE_000001");
    MarketKey(SH, "600000", "SH.600000", "XSHG_600000");
    MarketKey(BJ, "430047", "BJ.430047", "BJSE_430047");
    MarketKey(HK, "00700", "HK.00700", "XHKG_00700");
  }

  lemma OtherMarketsHaveNoKeys(code: string)
    ensures Build(Market.NotSet, code).None? && Build(Market.Unknown, code).None?
  {
  }
}
