/** The three ways the router turns locations into keys of a map. */
module LocationKeys {
  import opened Concepts
  import opened Decimal

  /** The batch client's key. */
  function BuildLocationKey(location: Location): string {
    PrintInt(location.latitude) + (" " + PrintInt(location.longitude))
  }

  lemma BuildLocationKeyIsInjective(a: Location, b: Location)
    requires BuildLocationKey(a) == BuildLocationKey(b)
    ensures a == b
  {
    PrintedPrefixIsUnique(a.latitude, b.latitude, PrintInt(a.longitude), PrintInt(b.longitude));
    PrintIntIsInjective(a.longitude, b.longitude);
  }

  /** The redis key of a route; the suffix is what the serializer prints of the engine's settings. */
  function SerializeKey(origin: Location, destination: Location, suffix: string): string {
    PrintInt(origin.latitude) + (" " + (PrintInt(origin.longitude) + (" " +
    (PrintInt(destination.latitude) + (" " + (PrintInt(destination.longitude) + (" " + suffix)))))))
  }

  lemma SerializeKeyIsInjective(o: Location, d: Location, suffix: string, o': Location, d': Location, suffix': string)
    requires SerializeKey(o, d, suffix) == SerializeKey(o', d', suffix')
    ensures o == o' && d == d' && suffix == suffix'
  {
    var t4, t4' := suffix, suffix';
    var t3, t3' := PrintInt(d.longitude) + (" " + t4), PrintInt(d'.longitude) + (" " + t4');
    var t2, t2' := PrintInt(d.latitude) + (" " + t3), PrintInt(d'.latitude) + (" " + t3');
    var t1, t1' := PrintInt(o.longitude) + (" " + t2), PrintInt(o'.longitude) + (" " + t2');
    PrintedPrefixIsUnique(o.latitude, o'.latitude, t1, t1');
    PrintedPrefixIsUnique(o.longitude, o'.longitude, t2, t2');
    PrintedPrefixIsUnique(d.latitude, d'.latitude, t3, t3');
    PrintedPrefixIsUnique(d.longitude, d'.longitude, t4, t4');
  }

  /** The matrix cache's key has nothing between the two numbers. */
  function EncodeLocation(location: Location): string {
    PrintInt(location.latitude) + PrintInt(location.longitude)
  }

  lemma EncodeLocationCollides()
    ensures EncodeLocation(Location(1, 23)) == EncodeLocation(Location(12, 3))
  {
    assert PrintNat(23) == PrintNat(2) + [Digit(3)];
    assert PrintNat(12) == PrintNat(1) + [Digit(2)];
  }

  /** Different locations share a key only if their latitudes are printed with different lengths. */
  lemma EncodeLocationCollidesOnlyAcrossLengths(a: Location, b: Location)
    requires EncodeLocation(a) == EncodeLocation(b) && |PrintInt(a.latitude)| == |PrintInt(b.latitude)|
    ensures a == b
  {
    var n := |PrintInt(a.latitude)|;
    assert PrintInt(a.latitude) == EncodeLocation(a)[..n] == PrintInt(b.latitude);
    assert PrintInt(a.longitude) == EncodeLocation(a)[n..] == PrintInt(b.longitude);
    PrintIntIsInjective(a.latitude, b.latitude);
    PrintIntIsInjective(a.longitude, b.longitude);
  }
}
