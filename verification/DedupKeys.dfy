/** The text keys that drive alert cooldown, and why two signals never share one. */
module DedupKeys {
  import opened Decimals

  function EgressKey(exe: string): string {
    "egress|" + exe
  }

  function IdentityKey(exe: string, value: string): string {
    "identity|" + exe + "|" + value
  }

  function DestKey(pid: nat, dest: string): string {
    "dest|" + (Decimal(pid) + "|" + dest)
  }

  function CountryKey(pid: nat, country: string): string {
    "geo|" + (Decimal(pid) + "|" + ("cc|" + country))
  }

  function AsnKey(pid: nat, asn: nat): string {
    "geo|" + (Decimal(pid) + "|" + ("asn|" + Decimal(asn)))
  }

  function VolumeKey(pid: nat): string {
    "volume|" + Decimal(pid)
  }

  /** How an executable without a path is named. */
  function PidName(pid: nat): string {
    "pid:" + Decimal(pid)
  }

  lemma DecimalUnique(a: nat, b: nat)
    requires Decimal(a) == Decimal(b)
    ensures a == b
  {
    DecimalInverts(a);
    DecimalInverts(b);
  }

  /** Text before the first bar determines, and is determined by, the whole. */
  lemma SplitAtBar(a: string, x: string, b: string, y: string)
    requires '|' !in a && '|' !in b && a + "|" + x == b + "|" + y
    ensures a == b && x == y
  {
    var s, t := a + "|" + x, b + "|" + y;
    assert s[|a|] == '|' && t[|b|] == '|';
    assert a == s[..|a|] == t[..|b|] == b;
    assert x == s[|a| + 1..] == t[|b| + 1..] == y;
  }

  lemma NumberedKeys(prefix: string, p: nat, x: string, q: nat, y: string)
    requires prefix + (Decimal(p) + "|" + x) == prefix + (Decimal(q) + "|" + y)
    ensures p == q && x == y
  {
    hide Decimal;
    var s, t := Decimal(p) + "|" + x, Decimal(q) + "|" + y;
    assert s == (prefix + s)[|prefix|..] && t == (prefix + t)[|prefix|..];
    SplitAtBar(Decimal(p), x, Decimal(q), y);
    DecimalUnique(p, q);
  }

  lemma DestKeyUnique(p: nat, x: string, q: nat, y: string)
    requires DestKey(p, x) == DestKey(q, y)
    ensures p == q && x == y
  {
    NumberedKeys("dest|", p, x, q, y);
  }

  lemma CountryKeyUnique(p: nat, x: string, q: nat, y: string)
    requires CountryKey(p, x) == CountryKey(q, y)
    ensures p == q && x == y
  {
    NumberedKeys("geo|", p, "cc|" + x, q, "cc|" + y);
    assert x == ("cc|" + x)[3..] && y == ("cc|" + y)[3..];
  }

  lemma AsnKeyUnique(p: nat, x: nat, q: nat, y: nat)
    requires AsnKey(p, x) == AsnKey(q, y)
    ensures p == q && x == y
  {
    hide Decimal;
    var a, b := Decimal(x), Decimal(y);
    NumberedKeys("geo|", p, "asn|" + a, q, "asn|" + b);
    assert a == ("asn|" + a)[4..] && b == ("asn|" + b)[4..];
    DecimalUnique(x, y);
  }

  lemma GeoKeysApart(p: nat, country: string, q: nat, asn: nat)
    ensures CountryKey(p, country) != AsnKey(q, asn)
  {
    hide Decimal;
    var a, b := "cc|" + country, "asn|" + Decimal(asn);
    assert a[0] != b[0];
    if CountryKey(p, country) == AsnKey(q, asn) {
      NumberedKeys("geo|", p, a, q, b);
    }
  }

  lemma EgressKeyUnique(a: string, b: string)
    requires EgressKey(a) == EgressKey(b)
    ensures a == b
  {
    assert a == EgressKey(a)[7..] && b == EgressKey(b)[7..];
  }

  /** The keys as they are stored. */
  lemma KeysSpelled()
    ensures EgressKey("/bin/curl") == "egress|/bin/curl" && IdentityKey("/bin/curl", "9f") == "identity|/bin/curl|9f"
    ensures DestKey(7, "ExampleNet") == "dest|7|ExampleNet" && VolumeKey(7) == "volume|7" && PidName(7) == "pid:7"
    ensures CountryKey(7, "DE") == "geo|7|cc|DE" && AsnKey(7, 13) == "geo|7|asn|13"
  {
    assert Decimal(7) == "7" && Decimal(13) == "13";
  }

  lemma LastBar(a: string, x: string, b: string, y: string)
    requires '|' !in x && '|' !in y && a + "|" + x == b + "|" + y
    ensures a == b && x == y
  {
    var s, t := a + "|" + x, b + "|" + y;
    assert s[|a|] == '|' && t[|b|] == '|';
    assert s[|a| + 1..] == x && t[|b| + 1..] == y;
    assert forall i :: |a| < i < |s| ==> s[i] in x;
    assert forall i :: |b| < i < |t| ==> t[i] in y;
    assert a == s[..|a|] && x == s[|a| + 1..];
  }

  /** Identity keys determine executable and value, as long as values hold no bar. */
  lemma IdentityKeyUnique(a: string, x: string, b: string, y: string)
    requires '|' !in x && '|' !in y && IdentityKey(a, x) == IdentityKey(b, y)
    ensures a == b && x == y
  {
    var s, t := a + "|" + x, b + "|" + y;
    assert IdentityKey(a, x) == "identity|" + s && IdentityKey(b, y) == "identity|" + t;
    assert s == ("identity|" + s)[9..] && t == ("identity|" + t)[9..];
    LastBar(a, x, b, y);
  }

  /** The six kinds of key never meet. */
  lemma KindsApart(exe: string, exe': string, value: string, p: nat, q: nat, r: nat, dest: string, country: string)
    ensures EgressKey(exe) !in [IdentityKey(exe', value), DestKey(p, dest), CountryKey(q, country), VolumeKey(r)]
    ensures IdentityKey(exe', value) !in [DestKey(p, dest), CountryKey(q, country), VolumeKey(r)]
    ensures DestKey(p, dest) !in [CountryKey(q, country), VolumeKey(r)] && CountryKey(q, country) != VolumeKey(r)
  {
    assert EgressKey(exe)[0] == 'e' && IdentityKey(exe', value)[0] == 'i' && DestKey(p, dest)[0] == 'd';
    assert CountryKey(q, country)[0] == 'g' && VolumeKey(r)[0] == 'v';
  }
}
