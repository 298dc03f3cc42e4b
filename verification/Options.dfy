/**
 * The client's constructor argument and how it becomes the option record
 * (src/GethApi/GethApi.php:69-78 and :88-109): nothing, an integer port,
 * a "host:port" or bare host string, or an array merged over the defaults.
 */
module Options {
  import opened Decimal
  import opened Json

  /** The option record: the merged PHP array, read by key. */
  type Config = map<string, Json>

  /** The class's default options. */
  function Defaults(): Config
  {
    map[
      "version" := JString("2.0"),
      "host" := JString("127.0.0.1"),
      "port" := JInt(8545),
      "assoc" := JBool(true)
    ]
  }

  predicate HasNoColon(s: string) {
    forall i :: 0 <= i < |s| ==> s[i] != ':'
  }

  /**
   * `s` matches /^([^\:]+)\:([\d]+)$/ with `h` and `p` as its two groups.
   * PCRE's `$` also matches just before a final newline, which the
   * groups then leave out.
   */
  ghost predicate MatchesHostPort(s: string, h: string, p: string) {
    && |h| > 0 && HasNoColon(h)
    && |p| > 0 && IsDigits(p)
    && (s == h + ":" + p || s == h + ":" + p + "\n")
  }

  /** The index of the first colon of `s`, if any. */
  function FirstColon(s: string): (r: Option<nat>)
    ensures r.None? ==> HasNoColon(s)
    ensures r.Some? ==> r.value < |s| && s[r.value] == ':' && HasNoColon(s[..r.value])
  {
    if s == [] then None
    else if s[0] == ':' then Some(0)
    else match FirstColon(s[1..])
      case None => None
      case Some(k) => Some(k + 1)
  }

  /** The pattern at src/GethApi/GethApi.php:96, hand-coded: its two groups when `s` matches. */
  function SplitHostPort(s: string): (r: Option<(string, string)>)
    ensures r.Some? ==> MatchesHostPort(s, r.value.0, r.value.1)
  {
    match FirstColon(s)
    case None => None
    case Some(c) =>
      var h := s[..c];
      var t := s[c + 1..];
      var p := if |t| > 0 && t[|t| - 1] == '\n' then t[..|t| - 1] else t;
      assert s == h + ":" + t;
      if |h| > 0 && |p| > 0 && IsDigits(p) then Some((h, p)) else None
  }

  /** A colon at `k` with none before it is the first colon. */
  lemma {:induction false} FirstColonAt(s: string, k: nat)
    requires k < |s| && s[k] == ':' && HasNoColon(s[..k])
    ensures FirstColon(s) == Some(k)
  {
    if k > 0 {
      assert s[0] == s[..k][0];
      assert s[1..][..k - 1] == s[..k][1..];
      FirstColonAt(s[1..], k - 1);
    }
  }

  /** Every match is found: SplitHostPort returns the groups exactly when the pattern matches. */
  lemma SplitHostPortComplete(s: string, h: string, p: string)
    requires MatchesHostPort(s, h, p)
    ensures SplitHostPort(s) == Some((h, p))
  {
    var k := |h|;
    assert s[..k] == h;
    FirstColonAt(s, k);
    var t := s[k + 1..];
    if s == h + ":" + p {
      assert t == p;
    } else {
      assert t == p + "\n";
      assert t[..|t| - 1] == p;
    }
  }

  /** A string without a colon matches nothing. */
  lemma NoColonNoMatch(s: string)
    requires HasNoColon(s)
    ensures forall h, p :: !MatchesHostPort(s, h, p)
  {
    forall h, p | MatchesHostPort(s, h, p) && |h| < |s|
      ensures s[|h|] == ':'
    {
    }
  }

  /** What the constructor's argument contributes before the merge (src/GethApi/GethApi.php:90-107). */
  function CallerOptions(v: Json): (r: Config)
    ensures !v.JObject? ==> r.Keys <= {"host", "port"}
    ensures !v.JObject? && "port" in r ==>
      || (r["port"].JInt? && r["port"].i != 0)
      || (r["port"].JString? && |r["port"].s| > 0 && IsDigits(r["port"].s))
    ensures !v.JObject? && "host" in r && r["host"].JString? ==> |r["host"].s| > 0
  {
    if !Truthy(v) then map[]
    else match v
      case JObject(ms) => ToMap(ms)
      case JArray(_) => map[]
      case JInt(n) => map["port" := JInt(n)]
      case _ =>
        match SplitHostPort(PhpString(v))
        case Some((h, p)) => map["host" := JString(h), "port" := JString(p)]
        case None => map["host" := v]
  }

  /** The option record the constructor stores (src/GethApi/GethApi.php:108): caller options over the defaults. */
  function Configure(v: Json): (r: Config)
    ensures forall k :: k in Defaults() ==> k in r
  {
    Defaults() + CallerOptions(v)
  }

  /** The address the transport handle is opened on (src/GethApi/GethApi.php:109). */
  function Url(cfg: Config): (r: string)
    requires "host" in cfg && "port" in cfg
    ensures |r| > 7 && r[..7] == "http://"
    ensures var host, port := PhpString(cfg["host"]), PhpString(cfg["port"]);
      |host| > 0 && HasNoColon(host) && |port| > 0 && IsDigits(port) ==>
        SplitHostPort(r[7..]) == Some((host, port))
  {
    var host, port := PhpString(cfg["host"]), PhpString(cfg["port"]);
    var r := "http://" + host + ":" + port;
    assert r[7..] == host + ":" + port;
    if |host| > 0 && HasNoColon(host) && |port| > 0 && IsDigits(port) then
      SplitHostPortComplete(r[7..], host, port);
      r
    else
      r
  }

  /** A falsy argument (null, false, 0, "", "0", an empty array) gives exactly the defaults. */
  lemma ConfigureFalsy(v: Json)
    requires !Truthy(v)
    ensures Configure(v) == Defaults()
  {
  }

  /** A nonzero integer is the port; everything else keeps its default. */
  lemma ConfigureInt(n: int)
    requires n != 0
    ensures Configure(JInt(n)) ==
      map["version" := JString("2.0"), "host" := JString("127.0.0.1"), "port" := JInt(n), "assoc" := JBool(true)]
  {
  }

  /** A "host:port" string sets both, the port kept as its digit string. */
  lemma ConfigureHostPort(s: string, h: string, p: string)
    requires MatchesHostPort(s, h, p)
    ensures Configure(JString(s)) ==
      map["version" := JString("2.0"), "host" := JString(h), "port" := JString(p), "assoc" := JBool(true)]
  {
    SplitHostPortComplete(s, h, p);
    assert Truthy(JString(s)) by { assert s[|h|] == ':'; }
  }

  /** Any other non-falsy string is the host, and the port stays 8545. */
  lemma ConfigureBareHost(s: string)
    requires s != "" && s != "0"
    requires forall h, p :: !MatchesHostPort(s, h, p)
    ensures Configure(JString(s)) ==
      map["version" := JString("2.0"), "host" := JString(s), "port" := JInt(8545), "assoc" := JBool(true)]
  {
  }

  /** `true` is not an array nor an integer: it reads as the string "1", which does not match, so it becomes the host. */
  lemma ConfigureTrue()
    ensures Configure(JBool(true)) ==
      map["version" := JString("2.0"), "host" := JBool(true), "port" := JInt(8545), "assoc" := JBool(true)]
  {
    assert FirstColon("1") == None by { assert "1"[1..] == []; }
  }

  /**
   * An associative array: every key it sets takes its value from the
   * caller, every default key it omits keeps the default, and no other key
   * appears.
   */
  lemma {:induction false} ConfigureArray(ms: seq<(string, Json)>)
    ensures forall k :: k in Configure(JObject(ms)) <==> k in Defaults() || Find(ms, k).Some?
    ensures forall k :: Find(ms, k).Some? ==> Configure(JObject(ms))[k] == Find(ms, k).value
    ensures forall k :: k in Defaults() && Find(ms, k).None? ==> Configure(JObject(ms))[k] == Defaults()[k]
  {
    forall k {
      ToMapAgreesWithFind(ms, k);
    }
  }

  /** A list carries only integer keys, which the client never reads: the string-keyed options are the defaults. */
  lemma ConfigureList(es: seq<Json>)
    ensures Configure(JArray(es)) == Defaults()
  {
  }

  /** A port given as an integer is written into the address in decimal, after the default host. */
  lemma UrlForPort(n: nat)
    requires n != 0
    ensures Url(Configure(JInt(n))) == "http://127.0.0.1:" + NatToDecimal(n)
    ensures ParseDecimal(NatToDecimal(n)) == n
  {
    var cfg := Configure(JInt(n));
    ConfigureInt(n);
    assert cfg["host"] == JString("127.0.0.1") && cfg["port"] == JInt(n);
    assert PhpString(cfg["host"]) == "127.0.0.1";
    assert PhpString(cfg["port"]) == NatToDecimal(n);
    assert Url(cfg) == "http://" + "127.0.0.1" + ":" + NatToDecimal(n);
    ParseNatToDecimal(n);
  }

  /** A "host:port" string reappears in the address unchanged, digits included. */
  lemma UrlForHostPort(s: string, h: string, p: string)
    requires MatchesHostPort(s, h, p)
    ensures Url(Configure(JString(s))) == "http://" + h + ":" + p
  {
    ConfigureHostPort(s, h, p);
  }

  /** A bare host is addressed on the default port 8545. */
  lemma UrlForBareHost(s: string)
    requires s != "" && s != "0"
    requires forall h, p :: !MatchesHostPort(s, h, p)
    ensures Url(Configure(JString(s))) == "http://" + s + ":8545"
  {
    ConfigureBareHost(s);
    assert NatToDecimal(8545) == "8545" by {
      assert NatToDecimal(8) == "8";
      assert NatToDecimal(85) == "85";
      assert NatToDecimal(854) == "854";
    }
  }

  /** Construction with the port 8546 keeps the default host. */
  lemma PortExample()
    ensures Configure(JInt(8546))["port"] == JInt(8546)
    ensures Configure(JInt(8546))["host"] == JString("127.0.0.1")
  {
    ConfigureInt(8546);
  }

  /** Construction with "10.0.0.5:9000", with or without a final newline, sets both host and port. */
  lemma HostPortExample()
    ensures Configure(JString("10.0.0.5:9000"))["host"] == JString("10.0.0.5")
    ensures Configure(JString("10.0.0.5:9000"))["port"] == JString("9000")
    ensures Configure(JString("10.0.0.5:9000\n"))["port"] == JString("9000")
  {
    var h, p := "10.0.0.5", "9000";
    assert "10.0.0.5:9000" == h + ":" + p;
    assert "10.0.0.5:9000\n" == h + ":" + p + "\n";
    ConfigureHostPort("10.0.0.5:9000", h, p);
    ConfigureHostPort("10.0.0.5:9000\n", h, p);
  }

  /** Construction with "10.0.0.5" keeps the default port. */
  lemma BareHostExample()
    ensures Configure(JString("10.0.0.5"))["host"] == JString("10.0.0.5")
    ensures Configure(JString("10.0.0.5"))["port"] == JInt(8545)
  {
    NoColonNoMatch("10.0.0.5");
    ConfigureBareHost("10.0.0.5");
  }
}
