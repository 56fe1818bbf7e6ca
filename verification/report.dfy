/** The report helpers: filename sanitizing, the top-N cut of a frequency
    table, the conversion of a port table to string keys, and the summary of
    a scan. */
module Report {
  import opened Text
  import opened Numerals
  import opened Counting
  import opened Shodan
  import opened GeoMapper

  /** Longest file-name stem the sanitizer returns, counted in bytes. */
  const MaxFilenameLength: nat := 50

  /** Characters a sanitized name never contains. */
  const UnsafeChars: set<char> := {'"', ' ', ':', '/', '\\', '+'}

  /** Size of each frequency table kept in the summary. */
  const TopCount: int := 10

  /** The chain of replacements: quotes removed, spaces to underscores,
      colons removed, slashes and backslashes to underscores, "+" to "plus",
      "OR" to "or". */
  function Substitute(query: string): (r: string)
    ensures forall i :: 0 <= i < |r| ==> r[i] in query || r[i] in "_plusor"
  {
    var s1 := ReplaceAll(query, "\"", "");
    var s2 := ReplaceAll(s1, " ", "_");
    var s3 := ReplaceAll(s2, ":", "");
    var s4 := ReplaceAll(s3, "/", "_");
    var s5 := ReplaceAll(s4, "\\", "_");
    var s6 := ReplaceAll(s5, "+", "plus");
    ReplaceAll(s6, "OR", "or")
  }

  /** The replacements leave no unsafe character and no "OR". */
  lemma SubstituteSafe(query: string)
    ensures Avoids(Substitute(query), UnsafeChars)
    ensures Free(Substitute(query), "OR")
  {
    var s1 := ReplaceAll(query, "\"", "");
    var s2 := ReplaceAll(s1, " ", "_");
    var s3 := ReplaceAll(s2, ":", "");
    var s4 := ReplaceAll(s3, "/", "_");
    var s5 := ReplaceAll(s4, "\\", "_");
    var s6 := ReplaceAll(s5, "+", "plus");
    ReplaceCharAvoids(query, '"', "", {});
    ReplaceCharAvoids(s1, ' ', "_", {'"'});
    ReplaceCharAvoids(s2, ':', "", {'"', ' '});
    ReplaceCharAvoids(s3, '/', "_", {'"', ' ', ':'});
    ReplaceCharAvoids(s4, '\\', "_", {'"', ' ', ':', '/'});
    ReplaceCharAvoids(s5, '+', "plus", {'"', ' ', ':', '/', '\\'});
    assert {'"', ' ', ':', '/', '\\'} + {'+'} == UnsafeChars;
    ReplaceOrRemoves(s6);
  }

  /** `SanitizeFilename`: the replacements, then a cut to 50 bytes. The result
      is short, holds no quote, space, colon, slash, backslash or plus, and
      contains no "OR". */
  function SanitizeFilename(query: string): (r: string)
    ensures |r| <= MaxFilenameLength
    ensures Avoids(r, UnsafeChars)
    ensures Free(r, "OR")
  {
    var s := Substitute(query);
    SubstituteSafe(query);
    if |s| > MaxFilenameLength then
      PrefixFree(s, MaxFilenameLength, "OR");
      s[..MaxFilenameLength]
    else s
  }

  /** Sanitizing a sanitized name changes nothing. */
  lemma SanitizeIdempotent(query: string)
    ensures SanitizeFilename(SanitizeFilename(query)) == SanitizeFilename(query)
  {
    var t := SanitizeFilename(query);
    CharFree(t, '"');
    ReplaceAllIdentity(t, "\"", "");
    CharFree(t, ' ');
    ReplaceAllIdentity(t, " ", "_");
    CharFree(t, ':');
    ReplaceAllIdentity(t, ":", "");
    CharFree(t, '/');
    ReplaceAllIdentity(t, "/", "_");
    CharFree(t, '\\');
    ReplaceAllIdentity(t, "\\", "_");
    CharFree(t, '+');
    ReplaceAllIdentity(t, "+", "plus");
    ReplaceAllIdentity(t, "OR", "or");
    assert Substitute(t) == t;
  }

  /** `GetTopN`: a table with at most n entries is returned as it is;
      otherwise n of its entries, chosen in map iteration order (which Go
      leaves unspecified), each with its value. A negative n yields an empty
      table. */
  method GetTopN(m: map<string, int>, n: int) returns (r: map<string, int>)
    ensures |m| <= n ==> r == m
    ensures IsSubmap(r, m)
    ensures |r| == if |m| <= n then |m| else if n < 0 then 0 else n
  {
    if |m| <= n {
      return m;
    }
    r := map[];
    var count := 0;
    var rest := m.Keys;
    while rest != {}
      invariant rest <= m.Keys
      invariant r.Keys == m.Keys - rest
      invariant forall k :: k in r ==> r[k] == m[k]
      invariant count == |r|
      invariant count <= if n < 0 then 0 else n
      decreases rest
    {
      HasMember(rest);
      var k :| k in rest;
      if count >= n {
        break;
      }
      r := r[k := m[k]];
      count := count + 1;
      rest := rest - {k};
    }
  }

  /** A string-keyed table that is as large as an integer-keyed one and holds
      the rendering of each of its keys has no other keys: every key is the
      canonical decimal rendering of the integer it parses to. */
  lemma RenderedKeysCanonical(m: map<int, int>, r: map<string, int>)
    requires |r| == |m|
    requires forall k {:trigger Decimal(k)} :: k in m ==> Decimal(k) in r
    ensures forall s :: s in r ==> ParseDecimal(s) in m && Decimal(ParseDecimal(s)) == s
  {
    var image := set k | k in m.Keys :: Decimal(k);
    DecimalImageSize(m.Keys);
    assert image <= r.Keys;
    assert |r.Keys - image| == |r.Keys| - |image|;
    var none: set<string> := {};
    assert r.Keys - image == none;
    forall s | s in r
      ensures ParseDecimal(s) in m && Decimal(ParseDecimal(s)) == s
    {
      assert s in image;
      var k :| k in m && Decimal(k) == s;
      DecimalRoundTrip(k);
    }
  }

  /** `ConvertIntMap`: the same table with each integer key rendered in
      decimal. No two keys collide, so the size and every value are kept, and
      every new key parses back to an old key and holds that key's value. */
  method ConvertIntMap(m: map<int, int>) returns (r: map<string, int>)
    ensures |r| == |m|
    ensures forall k {:trigger Decimal(k)} :: k in m ==> Decimal(k) in r && r[Decimal(k)] == m[k]
    ensures forall s :: s in r ==> ParseDecimal(s) in m && r[s] == m[ParseDecimal(s)]
  {
    DecimalInjective();
    r := map k | k in m :: Decimal(k) := m[k];
    assert r.Keys == set k | k in m.Keys :: Decimal(k);
    DecimalImageSize(m.Keys);
    RenderedKeysCanonical(m, r);
  }

  /** `r` holds entries of `m`, each under the canonical decimal rendering of
      its integer key. */
  predicate RenderedSubmap(r: map<string, int>, m: map<int, int>)
  {
    forall s :: s in r ==> ParseDecimal(s) in m && Decimal(ParseDecimal(s)) == s && r[s] == m[ParseDecimal(s)]
  }

  /** Every key of `m`, rendered in decimal, is a key of `r` holding the same
      value. */
  predicate RendersEvery(r: map<string, int>, m: map<int, int>)
  {
    forall k {:trigger Decimal(k)} :: k in m ==> Decimal(k) in r && r[Decimal(k)] == m[k]
  }

  /** The port table of the summary: rendered entries of `m`, and all of them
      when `m` fits in the top count. */
  predicate TopRendering(r: map<string, int>, m: map<int, int>)
  {
    RenderedSubmap(r, m) && (|m| <= TopCount ==> RendersEvery(r, m))
  }

  /** The fields of each match the summary tabulates. */
  function Ips(ms: seq<Match>): seq<string>
  {
    seq(|ms|, i requires 0 <= i < |ms| => ms[i].ip)
  }

  function Countries(ms: seq<Match>): seq<string>
  {
    seq(|ms|, i requires 0 <= i < |ms| => ms[i].location.country)
  }

  function Ports(ms: seq<Match>): seq<int>
  {
    seq(|ms|, i requires 0 <= i < |ms| => ms[i].port)
  }

  /** The non-empty product names, in match order; an empty product is not
      counted. */
  function Products(ms: seq<Match>): (r: seq<string>)
    ensures |r| <= |ms|
    ensures forall i :: 0 <= i < |r| ==> r[i] != ""
    decreases |ms|
  {
    if |ms| == 0 then []
    else
      var init := Products(ms[..|ms| - 1]);
      var p := ms[|ms| - 1].product;
      if p != "" then init + [p] else init
  }

  /** The summary document, one field per entry of the Go map. */
  datatype Summary = Summary(
    scanTimestamp: string,
    queriesExecuted: int,
    totalMatches: int,
    uniqueIps: int,
    geolocatedHosts: int,
    countriesFound: int,
    topCountries: map<string, int>,
    portsFound: map<string, int>,
    productsFound: map<string, int>,
    queriesUsed: seq<string>)

  /** Every match is counted once in the country table. */
  lemma CountryCountsSum(ms: seq<Match>)
    ensures Sum(Tally(Countries(ms))) == |ms|
  {
    TallySum(Countries(ms));
  }

  /** Every match is counted once in the port table. */
  lemma PortCountsSum(ms: seq<Match>)
    ensures Sum(Tally(Ports(ms))) == |ms|
  {
    TallySum(Ports(ms));
  }

  /** The product table counts each match with a non-empty product once. */
  lemma ProductCounts(ms: seq<Match>)
    ensures Sum(Tally(Products(ms))) == |Products(ms)|
  {
    TallySum(Products(ms));
  }

  /** `CreateSummary`: counts, the unique-IP count, and the top entries of
      the country, port and product tables. */
  method CreateSummary(queries: seq<string>, matches: seq<Match>, geoData: seq<GeoMapData>, timestamp: string)
    returns (s: Summary)
    ensures s.scanTimestamp == timestamp && s.queriesUsed == queries
    ensures s.queriesExecuted == |queries|
    ensures s.totalMatches == |matches|
    ensures s.geolocatedHosts == |geoData|
    ensures s.uniqueIps == |Distinct(Ips(matches))| && s.uniqueIps <= s.totalMatches
    ensures s.countriesFound == |Distinct(Countries(matches))| && s.countriesFound <= s.totalMatches
    ensures IsSubmap(s.topCountries, Tally(Countries(matches)))
    ensures |s.topCountries| == if s.countriesFound <= TopCount then s.countriesFound else TopCount
    ensures s.countriesFound <= TopCount ==> s.topCountries == Tally(Countries(matches))
    ensures Sum(s.topCountries) <= s.totalMatches
    ensures TopRendering(s.portsFound, Tally(Ports(matches)))
    ensures |s.portsFound| == if |Distinct(Ports(matches))| <= TopCount then |Distinct(Ports(matches))| else TopCount
    ensures IsSubmap(s.productsFound, Tally(Products(matches)))
    ensures |s.productsFound| == if |Distinct(Products(matches))| <= TopCount then |Distinct(Products(matches))| else TopCount
    ensures |Distinct(Products(matches))| <= TopCount ==> s.productsFound == Tally(Products(matches))
    ensures "" !in s.productsFound
    ensures Sum(s.productsFound) <= |Products(matches)|
  {
    var countryCount := Tally(Countries(matches));
    var portCount := Tally(Ports(matches));
    var productCount := Tally(Products(matches));
    var topCountries := GetTopN(countryCount, TopCount);
    var portKeys := ConvertIntMap(portCount);
    RenderedKeysCanonical(portCount, portKeys);
    var topPorts := GetTopN(portKeys, TopCount);
    var topProducts := GetTopN(productCount, TopCount);
    DistinctSize(Ips(matches));
    DistinctSize(Countries(matches));
    CountryCountsSum(matches);
    ProductCounts(matches);
    SumOfSubmap(topCountries, countryCount);
    SumOfSubmap(topProducts, productCount);
    s := Summary(
      timestamp, |queries|, |matches|, |Distinct(Ips(matches))|, |geoData|,
      |countryCount|, topCountries, topPorts, topProducts, queries);
  }
}
