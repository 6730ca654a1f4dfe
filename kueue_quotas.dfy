/**
 * The Kueue VM quota updater (hack/kueue-vm-quotas/update-kueue-vm-quotas.py): it reads the
 * multi-platform-controller's host-config data, turns each dynamic, static and local platform into a
 * `PlatformQuota`, sums the quotas of platforms that share a name, spreads the platforms over
 * resource groups of at most 16, and rewrites the ClusterQueue document and its ResourceFlavors.
 *
 * Reading and writing files, printing and argument parsing are not part of this model: the
 * host-config `data` mapping and the decoded cluster-queue documents are the inputs, and the
 * documents to write back are the output. A Python exception is a `Failure` carrying its text.
 */
module KueueQuotas {
  import opened Wrappers
  import opened Strs
  import Ordering
  import opened Yaml

  // ---------------------------------------------------------------------------------------------
  // Python's `int(str)`.

  predicate IsDigit(c: char) {
    '0' <= c <= '9'
  }

  predicate AllDigits(s: string) {
    forall i :: 0 <= i < |s| ==> IsDigit(s[i])
  }

  function DigitValue(c: char): nat
    requires IsDigit(c)
  {
    (c as int - '0' as int) as nat
  }

  /** The number written by a string of decimal digits (leading zeros allowed, as in Python). */
  function DigitsValue(s: string): nat
    requires AllDigits(s)
  {
    if |s| == 0 then 0 else DigitsValue(s[..|s| - 1]) * 10 + DigitValue(s[|s| - 1])
  }

  /**
   * `int(value)` on a string: surrounding whitespace is ignored, an optional sign, then at least one
   * decimal digit; anything else raises ValueError (None here).
   */
  function PyInt(s: string): Option<int> {
    IntLiteral(PyStrip(s))
  }

  /** An optional sign, then at least one decimal digit, with nothing around them. */
  function IntLiteral(t: string): (r: Option<int>)
    ensures r.Some? ==> |t| > 0
    ensures r.Some? && r.value < 0 ==> t[0] == '-'
  {
    if |t| > 0 && (t[0] == '-' || t[0] == '+') then
      if |t| > 1 && AllDigits(t[1..]) then
        var v: int := DigitsValue(t[1..]);
        Some(if t[0] == '-' then -v else v)
      else None
    else if |t| > 0 && AllDigits(t) then Some(DigitsValue(t))
    else None
  }

  lemma {:induction false} DigitsOfNat(n: nat)
    ensures AllDigits(NatToString(n)) && DigitsValue(NatToString(n)) == n
    decreases n
  {
    var s := NatToString(n);
    if n >= 10 {
      DigitsOfNat(n / 10);
      assert s[..|s| - 1] == NatToString(n / 10);
    }
  }

  lemma StripUnpadded(s: string)
    requires |s| > 0 && !PySpace(s[0]) && !PySpace(s[|s| - 1])
    ensures PyStrip(s) == s
  {
  }

  /** A decimal digit is not Python whitespace. */
  lemma DigitNotSpace(c: char)
    requires IsDigit(c)
    ensures !PySpace(c)
  {
  }

  /** A string of digits reads as its value. */
  lemma IntLiteralOfDigits(d: string)
    requires |d| > 0 && AllDigits(d)
    ensures IntLiteral(d) == Some(DigitsValue(d) as int)
  {
    assert IsDigit(d[0]);
  }

  /** A minus sign and a string of digits read as the negated value. */
  lemma IntLiteralOfNegated(d: string, v: int)
    requires |d| > 0 && AllDigits(d) && DigitsValue(d) == -v
    ensures IntLiteral("-" + d) == Some(v)
  {
    var t := "-" + d;
    assert t[1..] == d;
  }

  /** `int(str(n)) == n` for a natural number. */
  lemma PyIntOfNat(n: nat)
    ensures PyInt(NatToString(n)) == Some(n)
  {
    var s := NatToString(n);
    DigitsOfNat(n);
    DigitNotSpace(s[0]);
    DigitNotSpace(s[|s| - 1]);
    StripUnpadded(s);
    IntLiteralOfDigits(s);
  }

  lemma PyIntOfNonNegative(n: nat)
    ensures PyInt(IntToString(n)) == Some(n)
  {
    PyIntOfNat(n);
    assert IntToString(n) == NatToString(n);
  }

  lemma PyIntOfNegated(d: string, v: int)
    requires |d| > 0 && AllDigits(d) && DigitsValue(d) == -v
    ensures PyInt("-" + d) == Some(v)
  {
    var t := "-" + d;
    DigitNotSpace(d[|d| - 1]);
    assert t[|t| - 1] == d[|d| - 1];
    StripUnpadded(t);
    IntLiteralOfNegated(d, v);
  }

  lemma PyIntOfNegative(n: int)
    requires n < 0
    ensures PyInt(IntToString(n)) == Some(n)
  {
    DigitsOfNat(-n);
    PyIntOfNegated(NatToString(-n), n);
  }

  /** `int(str(n)) == n`: the decimal rendering of an integer reads back as that integer. */
  lemma PyIntOfString(n: int)
    ensures PyInt(IntToString(n)) == Some(n)
  {
    if n < 0 {
      PyIntOfNegative(n);
    } else {
      PyIntOfNonNegative(n);
    }
  }

  // ---------------------------------------------------------------------------------------------
  // Platforms and their quotas.

  /** A platform and its VM quota; the dataclass refuses a negative quota, so it is a `nat`. */
  datatype PlatformQuota = PlatformQuota(name: string, quota: nat)

  /** `PlatformQuota(name, quota)`: raises ValueError when the quota is negative. */
  function NewPlatformQuota(name: string, quota: int): (r: Result<PlatformQuota, string>)
    ensures r.Success? <==> quota >= 0
    ensures r.Success? ==> r.value.name == name && r.value.quota == quota
  {
    if quota < 0 then Failure("ValueError: Quota must be non-negative, got " + IntToString(quota))
    else Success(PlatformQuota(name, quota))
  }

  /** The quota `int(value)` builds, or the exception that stops it. */
  function QuotaFrom(name: string, value: string): (r: Result<PlatformQuota, string>)
    ensures r.Success? <==> PyInt(value).Some? && PyInt(value).value >= 0
    ensures r.Success? ==> r.value == PlatformQuota(name, PyInt(value).value)
  {
    match PyInt(value)
    case None => Failure("ValueError: invalid literal for int() with base 10")
    case Some(q) => NewPlatformQuota(name, q)
  }

  /** `extract_dynamic_platform`: the platform is the second dot-separated field of the key. */
  function ExtractDynamic(key: string, value: string): (r: Result<PlatformQuota, string>)
    requires '.' in key
  {
    CountPositive(key, '.');
    QuotaFrom(Split(key, '.')[1], value)
  }

  /** "dynamic.X.max-instances" names platform X, whenever X holds no dot. */
  lemma DynamicKey(x: string, value: string)
    requires '.' !in x
    ensures var r := ExtractDynamic("dynamic." + x + ".max-instances", value);
      (r.Success? <==> PyInt(value).Some? && PyInt(value).value >= 0) &&
      (r.Success? ==> r.value == PlatformQuota(x, PyInt(value).value))
  {
    DynamicKeyField(x);
  }

  /** The second dot-separated field of "dynamic.X.max-instances" is X. */
  lemma DynamicKeyField(x: string)
    requires '.' !in x
    ensures Split("dynamic." + x + ".max-instances", '.')[1] == x
  {
    var a, b := "dynamic", "max-instances";
    assert "dynamic." == a + ['.'];
    assert ".max-instances" == ['.'] + b;
    SecondField(a, x, b, "dynamic." + x + ".max-instances");
  }

  /** The second dot-separated field of "A.X.B" is X when A and X hold no dot. */
  lemma SecondField(a: string, x: string, b: string, key: string)
    requires '.' !in a && '.' !in x && key == a + ['.'] + x + ['.'] + b
    ensures Split(key, '.')[1] == x
  {
    var rest := x + ['.'] + b;
    assert key == a + ['.'] + rest;
    SplitAtFirst(a, rest, '.');
    SplitAtFirst(x, b, '.');
  }

  /** `'.'.join(key.split('.')[:-1])`: the key without its last dot-separated field. */
  function HostPrefix(key: string): string {
    var parts := Split(key, '.');
    Join(parts[..|parts| - 1], ".")
  }

  /** The host-config key naming the platform of a static host's concurrency key. */
  function PlatformKey(key: string): string {
    HostPrefix(key) + ".platform"
  }

  /** The platform key of "host.H.concurrency" is "host.H.platform". */
  lemma PlatformKeyOf(h: string)
    ensures PlatformKey("host." + h + ".concurrency") == "host." + h + ".platform"
  {
    var p := "host." + h;
    assert p + ".concurrency" == p + ['.'] + "concurrency";
    SplitLast(p, "concurrency", '.');
    var parts := Split(p + ".concurrency", '.');
    assert parts[..|parts| - 1] == Split(p, '.');
    JoinSplit(p, '.');
  }

  /**
   * `extract_static_platform`: the platform is the value of the host's ".platform" key with "/"
   * turned into "-"; a missing platform key raises KeyError.
   */
  function ExtractStatic(key: string, value: string, data: map<string, string>): (r: Result<PlatformQuota, string>)
    ensures PlatformKey(key) !in data ==> r.Failure?
    ensures r.Success? ==> '/' !in r.value.name
    ensures r.Success? ==> r.value.name == ReplaceChar(data[PlatformKey(key)], '/', "-")
    ensures PlatformKey(key) in data ==>
      (r.Success? <==> PyInt(value).Some? && PyInt(value).value >= 0)
  {
    var platformKey := PlatformKey(key);
    if platformKey !in data then Failure("KeyError: " + platformKey)
    else QuotaFrom(ReplaceChar(data[platformKey], '/', "-"), value)
  }

  /** The quota every local platform gets. */
  const LocalQuota: nat := 1000

  /**
   * `extract_local_platforms`: its body reads a name `values` that is defined nowhere (the parameter
   * is `value`), so every call raises NameError before any platform is built.
   */
  function ExtractLocalPlatforms(value: string, quota: nat): (r: Result<seq<PlatformQuota>, string>)
    ensures r.Failure?
  {
    Failure("NameError: name 'values' is not defined")
  }

  // ---------------------------------------------------------------------------------------------
  // The platform table: a Python dict from name to quota, which remembers insertion order.

  /** A snapshot of the table: the names in insertion order, and the entry of each name. */
  datatype Table = Table(order: seq<string>, quotas: map<string, PlatformQuota>)

  /** Each name is listed once, the listed names are the keys, and each entry carries its key. */
  predicate WellFormed(t: Table) {
    (forall i, j | 0 <= i < j < |t.order| :: t.order[i] != t.order[j])
    && (forall k | k in t.quotas :: k in t.order && t.quotas[k].name == k)
    && (forall i | 0 <= i < |t.order| :: t.order[i] in t.quotas)
  }

  /**
   * `add_or_aggregate_platform` on a snapshot: a known name has its quota increased (and keeps its
   * place), a new name is added at the end, every other entry stays as it was.
   */
  function Aggregate(t: Table, p: PlatformQuota): (r: Table)
    ensures WellFormed(t) ==> WellFormed(r)
    ensures p.name in r.quotas
    ensures r.quotas[p.name].quota == (if p.name in t.quotas then t.quotas[p.name].quota else 0) + p.quota
    ensures forall k :: k != p.name ==> (k in r.quotas <==> k in t.quotas)
    ensures forall k :: k != p.name && k in t.quotas ==> r.quotas[k] == t.quotas[k]
  {
    if p.name in t.quotas then
      Table(t.order, t.quotas[p.name := PlatformQuota(p.name, t.quotas[p.name].quota + p.quota)])
    else
      Table(t.order + [p.name], t.quotas[p.name := p])
  }

  /** The mutable table `parse_host_config` fills. */
  class QuotaTable {
    var order: seq<string>
    var quotas: map<string, PlatformQuota>

    constructor()
      ensures order == [] && quotas == map[]
    {
      order := [];
      quotas := map[];
    }

    function Snapshot(): Table
      reads this
    {
      Table(order, quotas)
    }

    /** `add_or_aggregate_platform(platform, self)`. */
    method AddOrAggregate(p: PlatformQuota)
      modifies this
      ensures Snapshot() == Aggregate(old(Snapshot()), p)
    {
      if p.name in quotas {
        var existing := quotas[p.name];
        quotas := quotas[p.name := PlatformQuota(p.name, existing.quota + p.quota)];
      } else {
        quotas := quotas[p.name := p];
        order := order + [p.name];
      }
    }

    /** The loop adding a key's platforms one by one. */
    method AddAll(ps: seq<PlatformQuota>, ghost prev: seq<PlatformQuota>)
      requires Snapshot() == Aggregated(prev)
      modifies this
      ensures Snapshot() == Aggregated(prev + ps)
    {
      var j := 0;
      assert prev + ps[..0] == prev;
      while j < |ps|
        invariant 0 <= j <= |ps|
        invariant Snapshot() == Aggregated(prev + ps[..j])
      {
        AggregatedStep(prev, ps, j);
        AddOrAggregate(ps[j]);
        j := j + 1;
      }
      assert ps[..j] == ps;
    }
  }

  /** The table after adding `ps` one by one to an empty one. */
  function Aggregated(ps: seq<PlatformQuota>): (r: Table)
    ensures WellFormed(r)
  {
    if |ps| == 0 then Table([], map[]) else Aggregate(Aggregated(ps[..|ps| - 1]), ps[|ps| - 1])
  }

  lemma AggregatedSnoc(ps: seq<PlatformQuota>, p: PlatformQuota)
    ensures Aggregated(ps + [p]) == Aggregate(Aggregated(ps), p)
  {
    assert (ps + [p])[..|ps|] == ps;
  }

  lemma AggregatedStep(prev: seq<PlatformQuota>, ps: seq<PlatformQuota>, j: nat)
    requires j < |ps|
    ensures Aggregated(prev + ps[..j + 1]) == Aggregate(Aggregated(prev + ps[..j]), ps[j])
  {
    assert prev + ps[..j + 1] == (prev + ps[..j]) + [ps[j]];
    AggregatedSnoc(prev + ps[..j], ps[j]);
  }

  /** The sum of the quotas of the platforms in `ps` called `name`. */
  function QuotaOf(ps: seq<PlatformQuota>, name: string): nat {
    if |ps| == 0 then 0
    else QuotaOf(ps[..|ps| - 1], name) + (if ps[|ps| - 1].name == name then ps[|ps| - 1].quota else 0)
  }

  /**
   * After aggregation a name is in the table exactly when some platform had it, and its quota is
   * the sum of all those platforms' quotas.
   */
  lemma {:induction false} AggregatedSums(ps: seq<PlatformQuota>, name: string)
    ensures name in Aggregated(ps).quotas <==> Named(ps, name)
    ensures name in Aggregated(ps).quotas ==> Aggregated(ps).quotas[name] == PlatformQuota(name, QuotaOf(ps, name))
    decreases |ps|
  {
    if |ps| > 0 {
      var init, last := ps[..|ps| - 1], ps[|ps| - 1];
      var t := Aggregated(init);
      AggregatedSums(init, name);
      NamedLast(ps, name);
      assert Aggregated(ps) == Aggregate(t, last);
      assert QuotaOf(ps, name) == QuotaOf(init, name) + (if last.name == name then last.quota else 0);
      if name !in t.quotas {
        NoneCalled(init, name);
      }
    }
  }

  /** Some platform of `ps` is called `name`. */
  ghost predicate Named(ps: seq<PlatformQuota>, name: string) {
    exists i :: 0 <= i < |ps| && ps[i].name == name
  }

  /** Some platform of `ps` is called `name` exactly when one before the last is, or the last is. */
  lemma NamedLast(ps: seq<PlatformQuota>, name: string)
    requires |ps| > 0
    ensures Named(ps, name) <==> Named(ps[..|ps| - 1], name) || ps[|ps| - 1].name == name
  {
    var init := ps[..|ps| - 1];
    if Named(init, name) {
      var i :| 0 <= i < |init| && init[i].name == name;
      assert ps[i].name == name;
    }
    if Named(ps, name) {
      var i :| 0 <= i < |ps| && ps[i].name == name;
      if i < |init| {
        assert init[i].name == name;
      }
    }
  }

  lemma {:induction false} NoneCalled(ps: seq<PlatformQuota>, name: string)
    requires forall i :: 0 <= i < |ps| ==> ps[i].name != name
    ensures QuotaOf(ps, name) == 0
    decreases |ps|
  {
    if |ps| > 0 {
      NoneCalled(ps[..|ps| - 1], name);
    }
  }

  // ---------------------------------------------------------------------------------------------
  // Reading host-config.yaml's data.

  /** The platforms one host-config key contributes, or the exception it raises. */
  function KeyPlatforms(key: string, data: map<string, string>): (r: Result<seq<PlatformQuota>, string>)
    requires key in data
    ensures r.Success? ==> |r.value| <= 1
    ensures key == "local-platforms" ==> r.Failure?
    ensures !(HasPrefix(key, "dynamic.") && HasSuffix(key, ".max-instances"))
      && !(HasPrefix(key, "host.") && HasSuffix(key, ".concurrency")) && key != "local-platforms"
      ==> r == Success([])
  {
    if HasPrefix(key, "dynamic.") && HasSuffix(key, ".max-instances") then
      assert key[7] == '.';
      match ExtractDynamic(key, data[key])
      case Failure(e) => Failure(e)
      case Success(p) => Success([p])
    else if HasPrefix(key, "host.") && HasSuffix(key, ".concurrency") then
      if PlatformKey(key) in data then
        match ExtractStatic(key, data[key], data)
        case Failure(e) => Failure(e)
        case Success(p) => Success([p])
      else Success([])
    else if key == "local-platforms" then
      ExtractLocalPlatforms(data[key], LocalQuota)
    else Success([])
  }

  /**
   * A "host.H.concurrency" key contributes a platform only when "host.H.platform" is present; the
   * platform is named by that value with "/" turned into "-".
   */
  lemma StaticKey(h: string, data: map<string, string>)
    requires "host." + h + ".concurrency" in data
    ensures var key := "host." + h + ".concurrency";
      var r := KeyPlatforms(key, data);
      ("host." + h + ".platform" !in data ==> r == Success([]))
      && ("host." + h + ".platform" in data ==>
        (r.Success? <==> PyInt(data[key]).Some? && PyInt(data[key]).value >= 0)
        && (r.Success? ==> r.value == [PlatformQuota(ReplaceChar(data["host." + h + ".platform"], '/', "-"), PyInt(data[key]).value)]))
  {
    var key := "host." + h + ".concurrency";
    PlatformKeyOf(h);
    assert key[0] == 'h';
    assert !HasPrefix(key, "dynamic.");
    assert HasPrefix(key, "host.") && HasSuffix(key, ".concurrency") by {
      assert key[..5] == "host.";
      assert key[|key| - 12..] == ".concurrency";
    }
  }

  /** A "dynamic.X.max-instances" key contributes platform X with quota `int(value)`. */
  lemma DynamicKeyPlatforms(x: string, data: map<string, string>)
    requires '.' !in x && "dynamic." + x + ".max-instances" in data
    ensures var key := "dynamic." + x + ".max-instances";
      var r := KeyPlatforms(key, data);
      (r.Success? <==> PyInt(data[key]).Some? && PyInt(data[key]).value >= 0)
      && (r.Success? ==> r.value == [PlatformQuota(x, PyInt(data[key]).value)])
  {
    var key := "dynamic." + x + ".max-instances";
    DynamicKey(x, data[key]);
    assert HasPrefix(key, "dynamic.") && HasSuffix(key, ".max-instances") by {
      assert key[..8] == "dynamic.";
      assert key[|key| - 14..] == ".max-instances";
    }
  }

  /** The platforms of the keys `ks`, in their order, up to the first exception. */
  function Extracted(ks: seq<string>, data: map<string, string>): Result<seq<PlatformQuota>, string>
    requires forall i :: 0 <= i < |ks| ==> ks[i] in data
  {
    if |ks| == 0 then Success([])
    else
      match Extracted(ks[..|ks| - 1], data)
      case Failure(e) => Failure(e)
      case Success(ps) =>
        match KeyPlatforms(ks[|ks| - 1], data)
        case Failure(e) => Failure(e)
        case Success(more) => Success(ps + more)
  }

  lemma ExtractedNext(ks: seq<string>, data: map<string, string>, i: nat)
    requires forall j :: 0 <= j < |ks| ==> ks[j] in data
    requires i < |ks| && Extracted(ks[..i], data).Success?
    ensures Extracted(ks[..i + 1], data) ==
      match KeyPlatforms(ks[i], data)
      case Failure(e) => Failure(e)
      case Success(more) => Success(Extracted(ks[..i], data).value + more)
  {
    assert ks[..i + 1][..i] == ks[..i];
  }

  /** Once a key has raised, the later keys change nothing. */
  lemma {:induction false} ExtractedStops(ks: seq<string>, data: map<string, string>, i: nat)
    requires forall j :: 0 <= j < |ks| ==> ks[j] in data
    requires i <= |ks| && Extracted(ks[..i], data).Failure?
    ensures Extracted(ks, data) == Extracted(ks[..i], data)
    decreases |ks| - i
  {
    if i < |ks| {
      assert ks[..i + 1][..i] == ks[..i];
      ExtractedStops(ks, data, i + 1);
    } else {
      assert ks[..i] == ks;
    }
  }

  /** A "local-platforms" key anywhere makes the whole parse fail. */
  lemma {:induction false} LocalPlatformsFail(ks: seq<string>, data: map<string, string>)
    requires forall j :: 0 <= j < |ks| ==> ks[j] in data
    requires "local-platforms" in ks
    ensures Extracted(ks, data).Failure?
  {
    var i :| 0 <= i < |ks| && ks[i] == "local-platforms";
    assert ks[..i + 1][..i] == ks[..i];
    ExtractedStops(ks, data, i + 1);
  }

  /** The result of `parse_host_config` for the keys taken in the order `ks`. */
  function ParseKeys(ks: seq<string>, data: map<string, string>): Result<Table, string>
    requires forall i :: 0 <= i < |ks| ==> ks[i] in data
  {
    match Extracted(ks, data)
    case Failure(e) => Failure(e)
    case Success(ps) => Success(Aggregated(ps))
  }

  /** `ks` is `sorted(data)`: the keys of `data`, each once, in increasing order. */
  predicate SortedKeys(ks: seq<string>, data: map<string, string>) {
    Ordering.StrictlySorted(ks) && (forall i :: 0 <= i < |ks| ==> ks[i] in data)
    && (forall k | k in data :: k in ks)
  }

  /** The keys of `data` in increasing order. */
  method SortKeys(data: map<string, string>) returns (ks: seq<string>)
    ensures SortedKeys(ks, data)
  {
    var listing: seq<string> := [];
    var todo := data.Keys;
    while todo != {}
      invariant todo <= data.Keys
      invariant Ordering.Distinct(listing)
      invariant forall x :: x in listing <==> x in data.Keys - todo
      decreases |todo|
    {
      var k :| k in todo;
      assert k !in listing;
      listing := listing + [k];
      todo := todo - {k};
    }
    Ordering.SortStringsDistinct(listing);
    ks := Ordering.SortStrings(listing);
    assert forall i :: 0 <= i < |ks| ==> ks[i] in data by {
      forall i | 0 <= i < |ks| ensures ks[i] in data {
        assert ks[i] in ks;
      }
    }
  }

  /**
   * `parse_host_config` on the decoded `data` mapping: the keys are visited in sorted order and each
   * platform found is added to the table. The result does not depend on anything but `data`, since
   * a set of keys has one sorted listing.
   */
  method ParseHostConfig(data: map<string, string>) returns (r: Result<Table, string>)
    ensures forall ks :: SortedKeys(ks, data) ==> r == ParseKeys(ks, data)
  {
    var ks := SortKeys(data);
    forall ks' | SortedKeys(ks', data) ensures ks' == ks {
      Ordering.StrictlySortedUnique(ks', ks);
    }
    var table := new QuotaTable();
    var i := 0;
    while i < |ks|
      invariant 0 <= i <= |ks|
      invariant Extracted(ks[..i], data).Success?
      invariant table.Snapshot() == Aggregated(Extracted(ks[..i], data).value)
    {
      ExtractedNext(ks, data, i);
      var found := KeyPlatforms(ks[i], data);
      if found.Failure? {
        ExtractedStops(ks, data, i + 1);
        return Failure(found.error);
      }
      table.AddAll(found.value, Extracted(ks[..i], data).value);
      i := i + 1;
    }
    assert ks[..i] == ks;
    r := Success(table.Snapshot());
  }

  // ---------------------------------------------------------------------------------------------
  // Spreading the platforms over resource groups.

  /** Kueue's limits: at most 16 resource groups, each covering at most 16 resources. */
  const MaxGroups: nat := 16
  const MaxPerGroup: nat := 16

  /** Platforms are sorted by name. */
  function NameKey(p: PlatformQuota): seq<string> {
    [p.name]
  }

  /** The groups laid end to end. */
  function Flatten<T>(gs: seq<seq<T>>): seq<T> {
    if |gs| == 0 then [] else gs[0] + Flatten(gs[1..])
  }

  lemma {:induction false} FlattenSnoc<T>(gs: seq<seq<T>>, g: seq<T>)
    ensures Flatten(gs + [g]) == Flatten(gs) + g
    decreases |gs|
  {
    if |gs| == 0 {
      assert Flatten([g]) == g + Flatten([g][1..]);
    } else {
      assert (gs + [g])[1..] == gs[1..] + [g];
      FlattenSnoc(gs[1..], g);
    }
  }

  /**
   * Consecutive runs of `n` elements, the last run possibly shorter: laid end to end they give back
   * `s`, none is empty or longer than `n`, and all but the last are full.
   */
  function Chunks<T>(s: seq<T>, n: nat): (r: seq<seq<T>>)
    requires n >= 1
    ensures Flatten(r) == s
    ensures forall i :: 0 <= i < |r| ==> 1 <= |r[i]| <= n
    ensures forall i :: 0 <= i < |r| - 1 ==> |r[i]| == n
    decreases |s|
  {
    if |s| == 0 then []
    else if |s| <= n then
      assert Flatten([s]) == s + Flatten([s][1..]);
      [s]
    else
      var rest := Chunks(s[n..], n);
      assert ([s[..n]] + rest)[1..] == rest;
      assert s == s[..n] + s[n..];
      [s[..n]] + rest
  }

  /** `|s|` elements make ceil(|s| / n) groups. */
  lemma {:induction false} ChunksCount<T>(s: seq<T>, n: nat)
    requires n >= 1
    ensures |Chunks(s, n)| * n >= |s| > (|Chunks(s, n)| - 1) * n
    decreases |s|
  {
    if |s| > n {
      var rest := Chunks(s[n..], n);
      assert Chunks(s, n) == [s[..n]] + rest;
      ChunksCount(s[n..], n);
      var c := |rest|;
      assert (c + 1) * n == c * n + n;
      assert c * n == (c - 1) * n + n;
    }
  }

  /** The three properties of `Chunks` determine it: no other grouping has them. */
  lemma {:induction false} ChunksUnique<T>(gs: seq<seq<T>>, s: seq<T>, n: nat)
    requires n >= 1 && Flatten(gs) == s
    requires forall i :: 0 <= i < |gs| ==> 1 <= |gs[i]| <= n
    requires forall i :: 0 <= i < |gs| - 1 ==> |gs[i]| == n
    ensures gs == Chunks(s, n)
    decreases |gs|
  {
    if |gs| == 1 {
      assert gs[1..] == [] && Flatten(gs[1..]) == [];
      assert Flatten(gs) == gs[0] + Flatten(gs[1..]);
      assert s == gs[0];
      assert gs == [gs[0]];
      assert Chunks(s, n) == [s];
    } else if |gs| > 1 {
      var rest := gs[1..];
      assert s == gs[0] + Flatten(rest);
      assert Flatten(rest) == rest[0] + Flatten(rest[1..]);
      assert s[..n] == gs[0] && s[n..] == Flatten(rest);
      ChunksUnique(rest, s[n..], n);
      assert gs == [gs[0]] + rest;
    }
  }

  /**
   * `distribute_platforms`: the platforms sorted by name, cut into groups of `maxPerGroup`, the
   * last group taking what is left.
   */
  method DistributePlatforms(platforms: seq<PlatformQuota>, maxPerGroup: nat) returns (groups: seq<seq<PlatformQuota>>)
    requires maxPerGroup >= 1
    ensures groups == Chunks(Ordering.SortBy(platforms, NameKey), maxPerGroup)
  {
    var sorted := Ordering.SortBy(platforms, NameKey);
    groups := CutGroups(sorted, maxPerGroup);
  }

  /** The grouping loop of `distribute_platforms`: a group is closed when it is full. */
  method CutGroups<T>(sorted: seq<T>, maxPerGroup: nat) returns (groups: seq<seq<T>>)
    requires maxPerGroup >= 1
    ensures groups == Chunks(sorted, maxPerGroup)
  {
    groups := [];
    var current: seq<T> := [];
    var i := 0;
    while i < |sorted|
      invariant 0 <= i <= |sorted|
      invariant Flatten(groups) + current == sorted[..i]
      invariant forall k :: 0 <= k < |groups| ==> |groups[k]| == maxPerGroup
      invariant |current| <= maxPerGroup
      invariant i > 0 <==> |current| > 0
    {
      if |current| >= maxPerGroup {
        CloseGroup(groups, current, maxPerGroup);
        groups := groups + [current];
        current := [];
      }
      AppendOne(Flatten(groups), current, sorted, i);
      current := current + [sorted[i]];
      i := i + 1;
    }
    assert sorted[..i] == sorted;
    if |current| > 0 {
      FlattenSnoc(groups, current);
      groups := groups + [current];
    }
    ChunksUnique(groups, sorted, maxPerGroup);
  }

  /** Closing a full group keeps every closed group full and the groups laid end to end. */
  lemma CloseGroup<T>(groups: seq<seq<T>>, current: seq<T>, n: nat)
    requires forall k :: 0 <= k < |groups| ==> |groups[k]| == n
    requires |current| == n
    ensures forall k :: 0 <= k < |groups + [current]| ==> |(groups + [current])[k]| == n
    ensures Flatten(groups + [current]) == Flatten(groups) + current
  {
    FlattenSnoc(groups, current);
  }

  lemma AppendOne<T>(done: seq<T>, current: seq<T>, s: seq<T>, i: nat)
    requires i < |s| && done + current == s[..i]
    ensures done + (current + [s[i]]) == s[..i + 1]
  {
    assert s[..i + 1] == s[..i] + [s[i]];
  }

  /** Laid end to end, the groups are the platforms ordered by name, each platform once. */
  lemma GroupsListPlatforms(platforms: seq<PlatformQuota>, n: nat)
    requires n >= 1
    ensures var flat := Flatten(Chunks(Ordering.SortBy(platforms, NameKey), n));
      multiset(flat) == multiset(platforms) && Ordering.Sorted(flat, NameKey)
  {
    Ordering.SortByPermutation(platforms, NameKey);
    Ordering.SortBySorted(platforms, NameKey);
  }

  // ---------------------------------------------------------------------------------------------
  // Resource groups.

  /** `ResourceSpec`: a resource and its quota, written as a decimal string. */
  datatype ResourceSpec = ResourceSpec(name: string, nominalQuota: string)

  /** `ResourceGroup`: the covered resource names and one spec per resource. */
  datatype ResourceGroup = ResourceGroup(coveredResources: seq<string>, resources: seq<ResourceSpec>)

  /**
   * `create_platform_resource_group`: the platforms sorted by name; each is covered, and each gets a
   * resource whose nominal quota is its quota written out.
   */
  function CreatePlatformResourceGroup(platforms: seq<PlatformQuota>): (r: ResourceGroup)
    ensures |r.coveredResources| == |r.resources| == |platforms|
    ensures forall i :: 0 <= i < |r.resources| ==> r.coveredResources[i] == r.resources[i].name
  {
    var sorted := Ordering.SortBy(platforms, NameKey);
    Ordering.SortByPermutation(platforms, NameKey);
    ResourceGroup(
      seq(|sorted|, i requires 0 <= i < |sorted| => sorted[i].name),
      seq(|sorted|, i requires 0 <= i < |sorted| => ResourceSpec(sorted[i].name, NatToString(sorted[i].quota))))
  }

  /**
   * A resource group records its platforms exactly: its resources are the platforms sorted by name
   * (the same platforms, as many times each), each nominal quota reads back as the platform's quota,
   * and the covered names are in order.
   */
  lemma ResourceGroupReadsBack(platforms: seq<PlatformQuota>)
    ensures var sorted := Ordering.SortBy(platforms, NameKey);
      var g := CreatePlatformResourceGroup(platforms);
      multiset(sorted) == multiset(platforms) && |g.resources| == |sorted| &&
      forall i :: 0 <= i < |sorted| ==>
        g.resources[i].name == sorted[i].name && PyInt(g.resources[i].nominalQuota) == Some(sorted[i].quota)
    ensures var c := CreatePlatformResourceGroup(platforms).coveredResources;
      forall i, j :: 0 <= i < j < |c| ==> !Ordering.StrLess(c[j], c[i])
  {
    var sorted := Ordering.SortBy(platforms, NameKey);
    Ordering.SortByPermutation(platforms, NameKey);
    Ordering.SortBySorted(platforms, NameKey);
    var g := CreatePlatformResourceGroup(platforms);
    forall i | 0 <= i < |sorted| ensures PyInt(g.resources[i].nominalQuota) == Some(sorted[i].quota) {
      PyIntOfNat(sorted[i].quota);
    }
    var c := g.coveredResources;
    forall i, j | 0 <= i < j < |c| ensures !Ordering.StrLess(c[j], c[i]) {
      Ordering.SingleKeyLess(c[j], c[i]);
      assert !Ordering.KeyLess(NameKey(sorted[j]), NameKey(sorted[i]));
    }
  }

  // ---------------------------------------------------------------------------------------------
  // The cluster-queue documents.

  /** A decoded YAML document whose top level is a mapping. */
  type Document = map<string, Value>

  /** Python truthiness of a decoded value (numbers and booleans count as true). */
  predicate Truthy(v: Value) {
    match v
    case Null => false
    case Str(s) => s != ""
    case Map(m) => |m| > 0
    case List(items) => |items| > 0
    case Other => true
  }

  /** `doc.get('kind') == kind`. */
  predicate KindIs(d: Document, kind: string) {
    "kind" in d && d["kind"] == Str(kind)
  }

  /** `doc.get('kind', '')`, a non-string kind read as "". */
  function KindOf(d: Document): string {
    if "kind" in d && d["kind"].Str? then d["kind"].s else ""
  }

  /** `doc['metadata']['name'] if doc.get('metadata') else ''`, a non-string name read as "". */
  function NameOf(d: Document): string {
    if "metadata" in d && Truthy(d["metadata"]) && d["metadata"].Map? then
      match GetStr(d["metadata"].m, "name")
      case Some(n) => n
      case None => ""
    else ""
  }

  /** An empty YAML document (None) never matches. */
  predicate IsKind(doc: Option<Document>, kind: string) {
    doc.Some? && KindIs(doc.value, kind)
  }

  /** `find_document_by_kind`: the position of the first document of that kind, else ValueError. */
  function FindDocumentByKind(docs: seq<Option<Document>>, kind: string): (r: Result<nat, string>)
    ensures r.Success? <==> exists i :: 0 <= i < |docs| && IsKind(docs[i], kind)
    ensures r.Success? ==> (r.value < |docs| && IsKind(docs[r.value], kind)
      && forall j :: 0 <= j < r.value ==> !IsKind(docs[j], kind))
  {
    FindFrom(docs, kind, 0)
  }

  function FindFrom(docs: seq<Option<Document>>, kind: string, i: nat): (r: Result<nat, string>)
    requires i <= |docs|
    ensures r.Success? <==> exists j :: i <= j < |docs| && IsKind(docs[j], kind)
    ensures r.Success? ==> (i <= r.value < |docs| && IsKind(docs[r.value], kind)
      && forall j :: i <= j < r.value ==> !IsKind(docs[j], kind))
    decreases |docs| - i
  {
    if i == |docs| then Failure("ValueError: " + kind + " document not found")
    else if IsKind(docs[i], kind) then Success(i)
    else FindFrom(docs, kind, i + 1)
  }

  /** The name of a ResourceFlavor document, when it is a non-empty string. */
  predicate FlavorNamed(doc: Option<Document>, name: string) {
    doc.Some? && KindIs(doc.value, "ResourceFlavor") && "metadata" in doc.value
    && doc.value["metadata"].Map? && GetStr(doc.value["metadata"].m, "name") == Some(name) && name != ""
  }

  /** `get_existing_flavor_names`: the names of the ResourceFlavor documents, in document order. */
  function ExistingFlavorNames(docs: seq<Option<Document>>): (r: seq<string>)
    ensures forall x :: x in r <==> exists i :: 0 <= i < |docs| && FlavorNamed(docs[i], x)
  {
    if |docs| == 0 then []
    else
      var init := docs[..|docs| - 1];
      var d := docs[|docs| - 1];
      var more := if d.Some? && KindIs(d.value, "ResourceFlavor") && "metadata" in d.value
        && d.value["metadata"].Map? && GetStr(d.value["metadata"].m, "name").Some?
        && GetStr(d.value["metadata"].m, "name").value != ""
        then [GetStr(d.value["metadata"].m, "name").value] else [];
      assert forall i :: 0 <= i < |init| ==> init[i] == docs[i];
      ExistingFlavorNames(init) + more
  }

  /** `group.get('coveredResources', [])`. */
  function CoveredResources(g: Value): seq<Value> {
    if g.Map? then GetList(g.m, "coveredResources") else []
  }

  /** The group that holds the basic resources of every pipeline run. */
  predicate CoversPipelineRuns(g: Value) {
    Str("tekton.dev/pipelineruns") in CoveredResources(g)
  }

  /**
   * `preserve_base_resource_group`: the first existing group covering tekton.dev/pipelineruns, alone,
   * or nothing when no group covers it.
   */
  function PreserveBaseResourceGroup(groups: seq<Value>): (r: seq<Value>)
    ensures |r| <= 1
    ensures r == [] <==> forall i :: 0 <= i < |groups| ==> !CoversPipelineRuns(groups[i])
    ensures r != [] ==> exists i :: (0 <= i < |groups| && r[0] == groups[i] && CoversPipelineRuns(groups[i])
      && forall j :: 0 <= j < i ==> !CoversPipelineRuns(groups[j]))
    decreases |groups|
  {
    if |groups| == 0 then []
    else if CoversPipelineRuns(groups[0]) then [groups[0]]
    else
      var r := PreserveBaseResourceGroup(groups[1..]);
      assert forall i :: 1 <= i < |groups| ==> groups[i] == groups[1..][i - 1];
      if r != [] then
        var i :| 0 <= i < |groups[1..]| && r[0] == groups[1..][i] && CoversPipelineRuns(groups[1..][i])
          && forall j :: 0 <= j < i ==> !CoversPipelineRuns(groups[1..][j]);
        assert forall j :: 0 <= j < i + 1 ==> !CoversPipelineRuns(groups[j]) by {
          forall j | 0 <= j < i + 1 ensures !CoversPipelineRuns(groups[j]) {
            if j > 0 {
              assert groups[j] == groups[1..][j - 1];
            }
          }
        }
        r
      else r
  }

  /** A group covering more than Kueue allows. */
  predicate Oversized(g: Value) {
    |CoveredResources(g)| > MaxPerGroup
  }

  /**
   * `validate_constraints`: raises ValueError exactly when there are more than 16 groups or some
   * group covers more than 16 resources.
   */
  function ValidateConstraints(groups: seq<Value>): (r: Outcome<string>)
    ensures r.Fail? <==> |groups| > MaxGroups || exists i :: 0 <= i < |groups| && Oversized(groups[i])
  {
    if |groups| > MaxGroups then
      Fail("ValueError: Generated " + NatToString(|groups|) + " resource groups, maximum is 16")
    else CheckGroups(groups, 0)
  }

  function CheckGroups(groups: seq<Value>, i: nat): (r: Outcome<string>)
    requires i <= |groups|
    ensures r.Fail? <==> exists j :: i <= j < |groups| && Oversized(groups[j])
    decreases |groups| - i
  {
    if i == |groups| then Pass
    else if Oversized(groups[i]) then
      Fail("ValueError: Group " + NatToString(i + 1) + " has " + NatToString(|CoveredResources(groups[i])|)
        + " covered resources, maximum is 16")
    else CheckGroups(groups, i + 1)
  }

  /** `resource_group_to_dict`: the group as a mapping with its single flavor. */
  function ResourceGroupToDict(g: ResourceGroup, flavor: string): (r: Value)
    ensures |CoveredResources(r)| == |g.coveredResources|
  {
    Map(map[
      "coveredResources" := List(seq(|g.coveredResources|, i requires 0 <= i < |g.coveredResources| => Str(g.coveredResources[i]))),
      "flavors" := List([Map(map[
        "name" := Str(flavor),
        "resources" := List(seq(|g.resources|, i requires 0 <= i < |g.resources| =>
          Map(map["name" := Str(g.resources[i].name), "nominalQuota" := Str(g.resources[i].nominalQuota)])))])])])
  }

  /** `create_resource_flavor`. */
  function CreateResourceFlavor(name: string): (r: Document)
    ensures KindOf(r) == "ResourceFlavor" && NameOf(r) == name
    ensures name != "" ==> FlavorNamed(Some(r), name)
  {
    map[
      "apiVersion" := Str("kueue.x-k8s.io/v1beta1"),
      "kind" := Str("ResourceFlavor"),
      "metadata" := Map(map["name" := Str(name)]),
      "spec" := Map(map[])]
  }

  /** The flavor of the i-th platform group, counting from 1. */
  function FlavorName(i: nat): string {
    "platform-group-" + NatToString(i)
  }

  lemma FlavorNamesDistinct(i: nat, j: nat)
    requires i != j
    ensures FlavorName(i) != FlavorName(j)
  {
    if FlavorName(i) == FlavorName(j) {
      assert FlavorName(i)[15..] == NatToString(i) && FlavorName(j)[15..] == NatToString(j);
      NatToStringInjective(i, j);
    }
  }

  // ---------------------------------------------------------------------------------------------
  // Updating the cluster queue.

  /** `list(platform_quotas.values())`: the platforms in insertion order. */
  function Values(t: Table): seq<PlatformQuota>
    requires WellFormed(t)
  {
    seq(|t.order|, i requires 0 <= i < |t.order| => t.quotas[t.order[i]])
  }

  /** The platform groups `distribute_platforms` forms from the table. */
  function PlatformGroups(t: Table): seq<seq<PlatformQuota>>
    requires WellFormed(t)
  {
    Chunks(Ordering.SortBy(Values(t), NameKey), MaxPerGroup)
  }

  /** The resource group of the i-th platform group (from 1), with its flavor "platform-group-i". */
  function GroupDict(platforms: seq<PlatformQuota>, i: nat): Value {
    ResourceGroupToDict(CreatePlatformResourceGroup(platforms), FlavorName(i))
  }

  function GroupDicts(groups: seq<seq<PlatformQuota>>): seq<Value> {
    seq(|groups|, i requires 0 <= i < |groups| => GroupDict(groups[i], i + 1))
  }

  lemma GroupDictsSnoc(groups: seq<seq<PlatformQuota>>, i: nat)
    requires i < |groups|
    ensures GroupDicts(groups[..i + 1]) == GroupDicts(groups[..i]) + [GroupDict(groups[i], i + 1)]
  {
  }

  /** The values `f(i)`, for `i` from 1 to `k` in order, of the numbers `keep` accepts. */
  function Picked<T>(k: nat, keep: nat -> bool, f: nat -> T): seq<T> {
    if k == 0 then [] else Picked(k - 1, keep, f) + (if keep(k) then [f(k)] else [])
  }

  /** `x` is `f(i)` for some accepted `i` from 1 to `k`. */
  ghost predicate PickedAt<T>(k: nat, keep: nat -> bool, f: nat -> T, x: T) {
    exists i :: 1 <= i <= k && keep(i) && x == f(i)
  }

  /** `Picked` holds exactly the values of the accepted numbers. */
  lemma {:induction false} PickedMembers<T>(k: nat, keep: nat -> bool, f: nat -> T, x: T)
    ensures x in Picked(k, keep, f) <==> PickedAt(k, keep, f, x)
  {
    if k > 0 {
      PickedMembers(k - 1, keep, f, x);
      if PickedAt(k, keep, f, x) {
        var i :| 1 <= i <= k && keep(i) && x == f(i);
        if i < k {
          assert PickedAt(k - 1, keep, f, x);
        }
      }
      if PickedAt(k - 1, keep, f, x) {
        var i :| 1 <= i <= k - 1 && keep(i) && x == f(i);
        assert PickedAt(k, keep, f, x);
      }
      if keep(k) && x == f(k) {
        assert PickedAt(k, keep, f, x);
      }
    }
  }

  /** Whether group number `i`'s flavor name is not in `existing`. */
  function IsNewFlavor(existing: seq<string>): nat -> bool {
    (i: nat) => FlavorName(i) !in existing
  }

  /** The ResourceFlavor document of group number `i`. */
  function FlavorDoc(i: nat): Option<Document> {
    Some(CreateResourceFlavor(FlavorName(i)))
  }

  /** The ResourceFlavor documents the update adds: "platform-group-i" for each group whose flavor is new. */
  function NewFlavorDocs(existing: seq<string>, k: nat): seq<Option<Document>> {
    Picked(k, IsNewFlavor(existing), FlavorDoc)
  }

  /** `d` is the flavor document of a group number up to `k` whose name is not in `existing`. */
  ghost predicate AddsFlavor(existing: seq<string>, k: nat, d: Option<Document>) {
    exists i :: 1 <= i <= k && FlavorName(i) !in existing && d == FlavorDoc(i)
  }

  /** A flavor document is added exactly for a group number whose flavor name was not yet in use. */
  lemma NewFlavorDocsAre(existing: seq<string>, k: nat, d: Option<Document>)
    ensures d in NewFlavorDocs(existing, k) <==> AddsFlavor(existing, k, d)
  {
    var keep := IsNewFlavor(existing);
    PickedMembers(k, keep, FlavorDoc, d);
    if AddsFlavor(existing, k, d) {
      var i :| 1 <= i <= k && FlavorName(i) !in existing && d == FlavorDoc(i);
      assert keep(i);
    }
    if PickedAt(k, keep, FlavorDoc, d) {
      var i :| 1 <= i <= k && keep(i) && d == FlavorDoc(i);
      assert AddsFlavor(existing, k, d);
    }
  }

  /** The sort key of the written documents: (kind, name). */
  function DocKey(d: Option<Document>): seq<string> {
    if d.Some? then [KindOf(d.value), NameOf(d.value)] else []
  }

  /** `cluster_queue_doc.get('spec', {}).get('resourceGroups', [])`. */
  function ExistingGroups(cq: Document): seq<Value> {
    GetList(GetMapOrEmpty(cq, "spec"), "resourceGroups")
  }

  /** A `spec` that is present but not a mapping makes `.get` raise AttributeError. */
  predicate SpecUnreadable(cq: Document) {
    "spec" in cq && !cq["spec"].Map?
  }

  /** The new resource groups: the preserved base group, then one group per platform group. */
  function NewResourceGroups(cq: Document, t: Table): seq<Value>
    requires WellFormed(t)
  {
    PreserveBaseResourceGroup(ExistingGroups(cq)) + GroupDicts(PlatformGroups(t))
  }

  /** `cluster_queue_doc['spec']['resourceGroups'] = groups`. */
  function WithGroups(cq: Document, groups: seq<Value>): Document
    requires "spec" in cq && cq["spec"].Map?
  {
    cq["spec" := Map(cq["spec"].m["resourceGroups" := List(groups)])]
  }

  /** The documents before sorting: flavors appended, the ClusterQueue at `idx` given its new groups. */
  function Unsorted(docs: seq<Option<Document>>, t: Table, idx: nat): seq<Option<Document>>
    requires WellFormed(t) && idx < |docs| && docs[idx].Some?
    requires "spec" in docs[idx].value && docs[idx].value["spec"].Map?
  {
    var cq := docs[idx].value;
    (docs + NewFlavorDocs(ExistingFlavorNames(docs), |PlatformGroups(t)|))[idx := Some(WithGroups(cq, NewResourceGroups(cq, t)))]
  }

  /**
   * What `process_cluster_queue_update` writes back, or the exception that stops it before writing:
   * no ClusterQueue, an unreadable spec, a broken Kueue limit, a missing spec, or an empty document
   * that the sort key cannot read.
   */
  function UpdateClusterQueue(docs: seq<Option<Document>>, t: Table): Result<seq<Option<Document>>, string>
    requires WellFormed(t)
  {
    match FindDocumentByKind(docs, "ClusterQueue")
    case Failure(e) => Failure(e)
    case Success(idx) =>
      var cq := docs[idx].value;
      if SpecUnreadable(cq) then Failure("AttributeError: 'spec' has no attribute 'get'")
      else
        match ValidateConstraints(NewResourceGroups(cq, t))
        case Fail(e) => Failure(e)
        case Pass =>
          if "spec" !in cq then Failure("KeyError: 'spec'")
          else
            var documents := Unsorted(docs, t, idx);
            if None in documents then Failure("AttributeError: 'NoneType' object has no attribute 'get'")
            else Success(Ordering.SortBy(documents, DocKey))
  }

  /**
   * The loop of `process_cluster_queue_update` over the platform groups: the i-th group's flavor
   * document is appended when its name is new, and its resource group is appended after `base`.
   */
  method AddPlatformGroups(docs: seq<Option<Document>>, existingFlavors: seq<string>, base: seq<Value>,
                           platformGroups: seq<seq<PlatformQuota>>)
    returns (documents: seq<Option<Document>>, newGroups: seq<Value>)
    ensures documents == docs + NewFlavorDocs(existingFlavors, |platformGroups|)
    ensures newGroups == base + GroupDicts(platformGroups)
  {
    documents := docs;
    newGroups := base;
    var i := 0;
    while i < |platformGroups|
      invariant 0 <= i <= |platformGroups|
      invariant documents == docs + NewFlavorDocs(existingFlavors, i)
      invariant newGroups == base + GroupDicts(platformGroups[..i])
    {
      var flavor := FlavorName(i + 1);
      if flavor !in existingFlavors {
        documents := documents + [FlavorDoc(i + 1)];
      }
      var group := CreatePlatformResourceGroup(platformGroups[i]);
      GroupDictsSnoc(platformGroups, i);
      newGroups := newGroups + [ResourceGroupToDict(group, flavor)];
      i := i + 1;
    }
    assert platformGroups[..i] == platformGroups;
  }

  /** `process_cluster_queue_update` on the decoded documents. */
  method ProcessClusterQueueUpdate(docs: seq<Option<Document>>, t: Table) returns (r: Result<seq<Option<Document>>, string>)
    requires WellFormed(t)
    ensures r == UpdateClusterQueue(docs, t)
  {
    var found := FindDocumentByKind(docs, "ClusterQueue");
    if found.Failure? {
      return Failure(found.error);
    }
    var idx := found.value;
    var cq := docs[idx].value;
    var existingFlavors := ExistingFlavorNames(docs);
    if SpecUnreadable(cq) {
      return Failure("AttributeError: 'spec' has no attribute 'get'");
    }
    var platformGroups := DistributePlatforms(Values(t), MaxPerGroup);
    var documents, newGroups := AddPlatformGroups(docs, existingFlavors, PreserveBaseResourceGroup(ExistingGroups(cq)), platformGroups);
    var check := ValidateConstraints(newGroups);
    if check.Fail? {
      return Failure(check.error);
    }
    if "spec" !in cq {
      return Failure("KeyError: 'spec'");
    }
    documents := documents[idx := Some(WithGroups(cq, newGroups))];
    if None in documents {
      return Failure("AttributeError: 'NoneType' object has no attribute 'get'");
    }
    r := Success(Ordering.SortBy(documents, DocKey));
  }

  // ---------------------------------------------------------------------------------------------
  // What the update promises.

  /** The position of the ClusterQueue document of a successful update, and the shape it must have. */
  lemma UpdateFound(docs: seq<Option<Document>>, t: Table) returns (idx: nat)
    requires WellFormed(t) && UpdateClusterQueue(docs, t).Success?
    ensures FindDocumentByKind(docs, "ClusterQueue") == Success(idx)
    ensures idx < |docs| && docs[idx].Some? && "spec" in docs[idx].value && docs[idx].value["spec"].Map?
    ensures UpdateClusterQueue(docs, t) == Success(Ordering.SortBy(Unsorted(docs, t, idx), DocKey))
    ensures None !in Unsorted(docs, t, idx)
  {
    idx := FindDocumentByKind(docs, "ClusterQueue").value;
  }

  /**
   * The written documents are sorted by (kind, name) and are exactly the input documents, the
   * ClusterQueue carrying its new groups, plus the new flavors.
   */
  lemma UpdateSorted(docs: seq<Option<Document>>, t: Table, idx: nat)
    requires WellFormed(t) && UpdateClusterQueue(docs, t).Success?
    requires FindDocumentByKind(docs, "ClusterQueue") == Success(idx)
    ensures Ordering.Sorted(UpdateClusterQueue(docs, t).value, DocKey)
    ensures docs[idx].Some? && "spec" in docs[idx].value && docs[idx].value["spec"].Map?
      && multiset(UpdateClusterQueue(docs, t).value) == multiset(Unsorted(docs, t, idx))
  {
    var i := UpdateFound(docs, t);
    Ordering.SortBySorted(Unsorted(docs, t, idx), DocKey);
    Ordering.SortByPermutation(Unsorted(docs, t, idx), DocKey);
  }

  /**
   * Every document other than the ClusterQueue is written back unchanged, and the ClusterQueue is
   * written with the preserved base group followed by the platform groups.
   */
  lemma UpdateKeepsDocuments(docs: seq<Option<Document>>, t: Table)
    requires WellFormed(t) && UpdateClusterQueue(docs, t).Success?
    ensures var idx := FindDocumentByKind(docs, "ClusterQueue").value;
      idx < |docs| && docs[idx].Some? && "spec" in docs[idx].value && docs[idx].value["spec"].Map?
      && Some(WithGroups(docs[idx].value, NewResourceGroups(docs[idx].value, t))) in UpdateClusterQueue(docs, t).value
      && forall j :: 0 <= j < |docs| && j != idx ==> docs[j] in UpdateClusterQueue(docs, t).value
  {
    var idx := UpdateFound(docs, t);
    var u := Unsorted(docs, t, idx);
    var out := UpdateClusterQueue(docs, t).value;
    Ordering.SortByPermutation(u, DocKey);
    assert u[idx] in multiset(out);
    forall j | 0 <= j < |docs| && j != idx ensures docs[j] in out {
      assert u[j] == docs[j];
      assert u[j] in multiset(out);
    }
  }

  /**
   * Every platform group's flavor "platform-group-i" exists after the update: it was already there,
   * or it was added.
   */
  lemma UpdateHasFlavors(docs: seq<Option<Document>>, t: Table, i: nat)
    requires WellFormed(t) && UpdateClusterQueue(docs, t).Success?
    requires 1 <= i <= |PlatformGroups(t)|
    ensures exists d :: d in UpdateClusterQueue(docs, t).value && FlavorNamed(d, FlavorName(i))
  {
    var idx := UpdateFound(docs, t);
    UpdateSorted(docs, t, idx);
    var x := FlavorInUnsorted(docs, t, idx, i);
    assert x in multiset(UpdateClusterQueue(docs, t).value);
  }

  /** The documents before sorting hold the flavor of every platform group. */
  lemma FlavorInUnsorted(docs: seq<Option<Document>>, t: Table, idx: nat, i: nat) returns (x: Option<Document>)
    requires WellFormed(t) && FindDocumentByKind(docs, "ClusterQueue") == Success(idx)
    requires idx < |docs| && docs[idx].Some? && "spec" in docs[idx].value && docs[idx].value["spec"].Map?
    requires 1 <= i <= |PlatformGroups(t)|
    ensures x in Unsorted(docs, t, idx) && FlavorNamed(x, FlavorName(i))
  {
    var existing := ExistingFlavorNames(docs);
    var added := NewFlavorDocs(existing, |PlatformGroups(t)|);
    var cq := docs[idx].value;
    var v := Some(WithGroups(cq, NewResourceGroups(cq, t)));
    assert Unsorted(docs, t, idx) == (docs + added)[idx := v];
    var name := FlavorName(i);
    if name in existing {
      var j :| 0 <= j < |docs| && FlavorNamed(docs[j], name);
      assert j != idx;
      x := docs[j];
    } else {
      x := FlavorDoc(i);
      NewFlavorDocsAre(existing, |PlatformGroups(t)|, x);
      assert AddsFlavor(existing, |PlatformGroups(t)|, x);
    }
    ReplacedKeeps(docs, added, idx, v, x);
  }

  /** Replacing one of the documents keeps the others and the appended ones. */
  lemma ReplacedKeeps(docs: seq<Option<Document>>, added: seq<Option<Document>>, idx: nat, v: Option<Document>, x: Option<Document>)
    requires idx < |docs|
    requires x in added || exists j :: 0 <= j < |docs| && j != idx && docs[j] == x
    ensures x in (docs + added)[idx := v]
  {
    var u := (docs + added)[idx := v];
    if x in added {
      var k :| 0 <= k < |added| && added[k] == x;
      assert u[|docs| + k] == x;
    } else {
      var j :| 0 <= j < |docs| && j != idx && docs[j] == x;
      assert u[j] == x;
    }
  }

  /** A platform group covers its platforms, never more than 16. */
  lemma GroupDictsFit(groups: seq<seq<PlatformQuota>>)
    requires forall i :: 0 <= i < |groups| ==> |groups[i]| <= MaxPerGroup
    ensures forall i :: 0 <= i < |GroupDicts(groups)| ==> !Oversized(GroupDicts(groups)[i])
  {
  }

  lemma NoneOversized(a: seq<Value>, b: seq<Value>)
    requires forall g :: g in a ==> !Oversized(g)
    requires forall i :: 0 <= i < |b| ==> !Oversized(b[i])
    ensures forall i :: 0 <= i < |a + b| ==> !Oversized((a + b)[i])
  {
    forall i | 0 <= i < |a + b| ensures !Oversized((a + b)[i]) {
      if i < |a| {
        assert (a + b)[i] in a;
      } else {
        assert (a + b)[i] == b[i - |a|];
      }
    }
  }

  /**
   * The Kueue limits hold exactly when the platforms fit in the groups left after the preserved base
   * group: at most 256 platforms without one, at most 240 with one (when the base group is itself
   * within the limit).
   */
  lemma ValidationByCount(cq: Document, t: Table)
    requires WellFormed(t)
    requires forall g :: g in PreserveBaseResourceGroup(ExistingGroups(cq)) ==> !Oversized(g)
    ensures ValidateConstraints(NewResourceGroups(cq, t)).Pass? <==>
      |t.order| <= MaxPerGroup * (MaxGroups - |PreserveBaseResourceGroup(ExistingGroups(cq))|)
  {
    var base := PreserveBaseResourceGroup(ExistingGroups(cq));
    var sorted := Ordering.SortBy(Values(t), NameKey);
    Ordering.SortByPermutation(Values(t), NameKey);
    assert |sorted| == |t.order| by {
      assert |multiset(sorted)| == |multiset(Values(t))|;
    }
    var chunks := PlatformGroups(t);
    GroupDictsFit(chunks);
    ChunksCount(sorted, MaxPerGroup);
    var dicts := GroupDicts(chunks);
    NoneOversized(base, dicts);
    ValidationPasses(base + dicts);
    GroupCountBound(|t.order|, |chunks|, |base|);
  }

  /** Groups none of which is oversized pass validation exactly when there are at most 16 of them. */
  lemma ValidationPasses(groups: seq<Value>)
    requires forall i :: 0 <= i < |groups| ==> !Oversized(groups[i])
    ensures ValidateConstraints(groups).Pass? <==> |groups| <= MaxGroups
  {
  }

  /**
   * `n` platforms cut into `c` groups of 16 fit beside `b` other groups exactly when `n` is at most
   * 16 times the room left.
   */
  lemma GroupCountBound(n: nat, c: nat, b: nat)
    requires c * MaxPerGroup >= n > (c - 1) * MaxPerGroup
    ensures b + c <= MaxGroups <==> n <= MaxPerGroup * (MaxGroups - b)
  {
  }
}
