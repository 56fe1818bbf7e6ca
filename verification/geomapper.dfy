/** The geo converter: reduces Shodan matches to records for plotting on a
    map, dropping matches that carry no coordinates. */
module GeoMapper {
  import opened Results
  import opened Shodan

  datatype GeoMapData = GeoMapData(
    ip: string,
    country: string,
    city: string,
    latitude: real,
    longitude: real,
    port: int,
    sshInfo: string,
    timestamp: string)

  /** The API reports "no location" as latitude 0 and longitude 0. */
  predicate HasLocation(m: Match) {
    m.location.latitude != 0.0 || m.location.longitude != 0.0
  }

  /** The product and version part of the info string. */
  function ProductInfo(m: Match): string {
    "Product: " + m.product + ", Version: " + m.version
  }

  /** The info string: product and version, then the SSH type when the match
      has an SSH record. It always starts with the product and version part,
      and it is longer than that part exactly when an SSH record is present. */
  function SshInfo(m: Match): (s: string)
    ensures ProductInfo(m) <= s
    ensures m.ssh.Some? <==> |s| > |ProductInfo(m)|
    ensures m.ssh.Some? ==> s[|ProductInfo(m)|..] == ", Type: " + m.ssh.value.kind
  {
    match m.ssh
    case Some(ssh) => ProductInfo(m) + ", Type: " + ssh.kind
    case None => ProductInfo(m)
  }

  /** The record built for one located match. */
  function ToGeo(m: Match): GeoMapData {
    GeoMapData(
      m.ip, m.location.country, m.location.city,
      m.location.latitude, m.location.longitude,
      m.port, SshInfo(m), m.timestamp)
  }

  /** `ConvertToGeoData`: walk the matches in order and append a record for
      each located one. No record is longer than its input and no record has
      both coordinates zero. */
  function ConvertToGeoData(ms: seq<Match>): (gs: seq<GeoMapData>)
    ensures |gs| <= |ms|
    ensures forall i :: 0 <= i < |gs| ==> gs[i].latitude != 0.0 || gs[i].longitude != 0.0
    decreases |ms|
  {
    if |ms| == 0 then []
    else
      var last := ms[|ms| - 1];
      ConvertToGeoData(ms[..|ms| - 1]) + (if HasLocation(last) then [ToGeo(last)] else [])
  }

  /** Reference definition, part one: the located matches, in order. */
  function Located(ms: seq<Match>): seq<Match>
    decreases |ms|
  {
    if |ms| == 0 then []
    else if HasLocation(ms[0]) then [ms[0]] + Located(ms[1..])
    else Located(ms[1..])
  }

  /** Reference definition, part two: one record per match. */
  function Project(ms: seq<Match>): seq<GeoMapData>
  {
    seq(|ms|, i requires 0 <= i < |ms| => ToGeo(ms[i]))
  }

  /** Converting a concatenation converts each part in turn. */
  lemma {:induction false} ConvertDistributes(a: seq<Match>, b: seq<Match>)
    ensures ConvertToGeoData(a + b) == ConvertToGeoData(a) + ConvertToGeoData(b)
    decreases |b|
  {
    if |b| > 0 {
      var init := b[..|b| - 1];
      ConvertDistributes(a, init);
      assert (a + b)[..|a + b| - 1] == a + init;
      assert (a + b)[|a + b| - 1] == b[|b| - 1];
    } else {
      assert a + b == a;
    }
  }

  /** The conversion is exactly "keep the located matches, then project each
      one", in the original order. */
  lemma {:induction false} ConvertIsFilterThenProject(ms: seq<Match>)
    ensures ConvertToGeoData(ms) == Project(Located(ms))
    decreases |ms|
  {
    if |ms| > 0 {
      ConvertIsFilterThenProject(ms[1..]);
      ConvertDistributes([ms[0]], ms[1..]);
      assert ms == [ms[0]] + ms[1..];
      assert ConvertToGeoData([ms[0]]) == (if HasLocation(ms[0]) then [ToGeo(ms[0])] else []) by {
        assert [ms[0]][..0] == [];
      }
    }
  }

  /** A match without coordinates contributes nothing: removing it from the
      input leaves the output unchanged. */
  lemma UnlocatedContributesNothing(ms: seq<Match>, i: nat)
    requires i < |ms|
    requires !HasLocation(ms[i])
    ensures ConvertToGeoData(ms) == ConvertToGeoData(ms[..i] + ms[i + 1..])
  {
    var a, b := ms[..i], ms[i + 1..];
    var ax := a + [ms[i]];
    assert ax[..|ax| - 1] == a;
    assert ConvertToGeoData(ax) == ConvertToGeoData(a);
    assert ms == ax + b;
    ConvertDistributes(ax, b);
    ConvertDistributes(a, b);
  }

  /** Every output record comes from a located input match, with the IP,
      country, city, coordinates, port and timestamp copied unchanged and the
      info string built from the same match. */
  lemma CopiesFields(ms: seq<Match>)
    ensures forall g :: g in ConvertToGeoData(ms) ==>
      exists m :: m in ms && HasLocation(m)
        && g.ip == m.ip && g.country == m.location.country && g.city == m.location.city
        && g.latitude == m.location.latitude && g.longitude == m.location.longitude
        && g.port == m.port && g.timestamp == m.timestamp && g.sshInfo == SshInfo(m)
  {
    ConvertIsFilterThenProject(ms);
    LocatedSound(ms);
    forall g | g in ConvertToGeoData(ms)
      ensures exists m :: m in ms && HasLocation(m) && g == ToGeo(m)
    {
      var i :| 0 <= i < |Located(ms)| && Project(Located(ms))[i] == g;
      assert Located(ms)[i] in Located(ms);
    }
  }

  /** The filter keeps only located matches drawn from its input. */
  lemma {:induction false} LocatedSound(ms: seq<Match>)
    ensures |Located(ms)| <= |ms|
    ensures forall m :: m in Located(ms) ==> m in ms && HasLocation(m)
    decreases |ms|
  {
    if |ms| > 0 {
      LocatedSound(ms[1..]);
    }
  }
}
