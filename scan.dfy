/**
 * The per-target scan protocol of the scanner core (`Core._scan`), its
 * completion test (`Core.finish`) and the shared progress store and snapshot
 * queue they update.
 *
 * The network collaborators (the port probe, the fingerprinter and each PoC's
 * `verify`) and the PoC registry are not part of this model: they are passed
 * in as functions, so every statement below holds whatever they answer.
 */
module Scan {

  import opened Wrappers
  import opened Text
  import opened Seqs

  /**
   * A port as `_scan` hands it to the collaborators: the text after the `:`
   * of an `ip:port` target (a string in the source), or one of the configured
   * port numbers.
   */
  datatype Port = Given(text: string) | Configured(number: int)

  /** `str(port)`, as written into a not-vulnerable record. */
  function PortText(p: Port): (s: string)
    ensures p.Given? ==> s == p.text
    ensures p.Configured? ==> ParseDecimal(s) == Some(p.number)
  {
    match p
    case Given(t) => t
    case Configured(n) => DecimalRoundTrip(n); Decimal(n)
  }

  /** A parsed target: the address and, for `ip:port`, the explicit port text. */
  datatype Target = Target(ip: string, port: Option<string>)

  /**
   * `target.split(':')`: the address is the text before the first `:`; the
   * port, when there is a `:`, is the text after it up to the next `:` or
   * the end, and anything after a second `:` is ignored.
   */
  function ParseTarget(target: string): (t: Target)
    ensures ':' !in t.ip
    ensures |t.ip| <= |target| && target[..|t.ip|] == t.ip
    ensures t.port.None? <==> ':' !in target
    ensures t.port.None? ==> t.ip == target
    ensures t.port.Some? ==>
      var p, start := t.port.value, |t.ip| + 1;
      && ':' !in p
      && target[|t.ip|] == ':'
      && start + |p| <= |target| && target[start..start + |p|] == p
      && (start + |p| == |target| || target[start + |p|] == ':')
  {
    var items := Split(target, ':');
    SplitFirst(target, ':');
    if |items| > 1 then
      var start := |items[0]| + 1;
      SplitFirst(target[start..], ':');
      assert target[start..][..|items[1]|] == target[start..start + |items[1]|];
      Target(items[0], Some(items[1]))
    else
      Target(items[0], None)
  }

  /** The ports `_scan` walks, in order: the explicit one, or the configured list. */
  function PortsOf(t: Target, configured: seq<int>): (ports: seq<Port>)
    ensures t.port.Some? ==> ports == [Given(t.port.value)]
    ensures t.port.None? ==>
      |ports| == |configured| && forall k :: 0 <= k < |ports| ==> ports[k] == Configured(configured[k])
  {
    match t.port
    case Some(p) => [Given(p)]
    case None => seq(|configured|, k requires 0 <= k < |configured| => Configured(configured[k]))
  }

  /** A PoC, known to the model only by its identity. */
  datatype Poc = Poc(name: string)

  /**
   * The network collaborators: `port_scan(ip, port, timeout)`,
   * `fingerprint(ip, port, config)` (the empty string when no product is
   * identified) and `poc.verify(ip, port)` (the empty sequence when the PoC
   * does not verify: the source's falsy results).
   */
  datatype Probe = Probe(
    portScan: (string, Port, real) -> bool,
    fingerprint: (string, Port) -> string,
    verify: (Poc, string, Port) -> seq<string>)

  /** What one scan sees: the configured timeout, the PoC registry and the collaborators. */
  datatype Env = Env(timeout: real, registry: string -> seq<Poc>, probe: Probe)

  /** The scanner's configuration, as far as `_scan` reads it. */
  datatype Config = Config(ports: seq<int>, timeout: real, disableSnapshot: bool)

  /** One PoC that verified on one port, with its untruncated results. */
  datatype Hit = Hit(port: Port, poc: Poc, results: seq<string>)

  /** `(poc.exploit, results)`, as put on the snapshot queue. */
  datatype SnapshotJob = SnapshotJob(exploit: Poc, results: seq<string>)

  /** The product on a port: fingerprinted only when the probe finds the port open. */
  function Product(ip: string, port: Port, env: Env): string
  {
    if env.probe.portScan(ip, port, env.timeout) then env.probe.fingerprint(ip, port) else ""
  }

  /** The PoCs of `pocs`, in order, that verify on `port`. */
  function PocHits(ip: string, port: Port, pocs: seq<Poc>, verify: (Poc, string, Port) -> seq<string>): seq<Hit>
    decreases |pocs|
  {
    if pocs == [] then []
    else
      var poc := pocs[|pocs| - 1];
      var results := verify(poc, ip, port);
      PocHits(ip, port, pocs[..|pocs| - 1], verify) + (if results != [] then [Hit(port, poc, results)] else [])
  }

  /** The hits on one port: every PoC registered for its product that verifies. */
  function PortHits(ip: string, port: Port, env: Env): seq<Hit>
  {
    var product := Product(ip, port, env);
    if product == "" then [] else PocHits(ip, port, env.registry(product), env.probe.verify)
  }

  /** The hits of a whole target: port by port, then PoC by PoC. */
  function ScanHits(ip: string, ports: seq<Port>, env: Env): seq<Hit>
    decreases |ports|
  {
    if ports == [] then []
    else ScanHits(ip, ports[..|ports| - 1], env) + PortHits(ip, ports[|ports| - 1], env)
  }

  /** Scanning one more port adds exactly that port's hits and not-vulnerable record. */
  lemma ScanStep(ip: string, ports: seq<Port>, i: nat, env: Env)
    requires i < |ports|
    ensures ScanHits(ip, ports[..i + 1], env) == ScanHits(ip, ports[..i], env) + PortHits(ip, ports[i], env)
    ensures NotVulnerable(ip, ports[..i + 1], env)
      == NotVulnerable(ip, ports[..i], env) + PortNotVulnerable(ip, ports[i], env)
  {
    assert ports[..i + 1][..i] == ports[..i];
  }

  /** `[ip, str(port), product]` when the port is identified and no PoC verified on it. */
  function PortNotVulnerable(ip: string, port: Port, env: Env): seq<seq<string>>
  {
    var product := Product(ip, port, env);
    if product != "" && PortHits(ip, port, env) == [] then [[ip, PortText(port), product]] else []
  }

  /** The not-vulnerable records of a whole target, port by port. */
  function NotVulnerable(ip: string, ports: seq<Port>, env: Env): seq<seq<string>>
    decreases |ports|
  {
    if ports == [] then []
    else NotVulnerable(ip, ports[..|ports| - 1], env) + PortNotVulnerable(ip, ports[|ports| - 1], env)
  }

  /** `results[:6]`: the first six fields, or all of them when there are fewer. */
  function Truncate(results: seq<string>): (r: seq<string>)
    ensures |r| == if |results| < 6 then |results| else 6
    ensures r == results[..|r|]
  {
    if |results| <= 6 then results else results[..6]
  }

  /** The vulnerable records written for a sequence of hits, one per hit. */
  function VulnerableRecords(hits: seq<Hit>): (records: seq<seq<string>>)
    decreases |hits|
  {
    if hits == [] then []
    else VulnerableRecords(hits[..|hits| - 1]) + [Truncate(hits[|hits| - 1].results)]
  }

  /** The snapshot jobs enqueued for a sequence of hits, one per hit. */
  function SnapshotJobs(hits: seq<Hit>): (jobs: seq<SnapshotJob>)
    decreases |hits|
  {
    if hits == [] then []
    else SnapshotJobs(hits[..|hits| - 1]) + [SnapshotJob(hits[|hits| - 1].poc, hits[|hits| - 1].results)]
  }

  /** Verifying one more PoC adds its hit last, when it verifies. */
  lemma PocStep(ip: string, port: Port, pocs: seq<Poc>, j: nat, verify: (Poc, string, Port) -> seq<string>)
    requires j < |pocs|
    ensures var results := verify(pocs[j], ip, port);
      PocHits(ip, port, pocs[..j + 1], verify) ==
        PocHits(ip, port, pocs[..j], verify) + (if results != [] then [Hit(port, pocs[j], results)] else [])
  {
    assert pocs[..j + 1][..j] == pocs[..j];
  }

  /** One more hit adds one record and one snapshot job, last. */
  lemma HitStep(hits: seq<Hit>, hit: Hit)
    ensures VulnerableRecords(hits + [hit]) == VulnerableRecords(hits) + [Truncate(hit.results)]
    ensures SnapshotJobs(hits + [hit]) == SnapshotJobs(hits) + [SnapshotJob(hit.poc, hit.results)]
  {
    assert (hits + [hit])[..|hits|] == hits;
  }

  /** Record k is the first six fields of hit k's results; job k carries hit k's full results. */
  lemma {:induction false} HitsEffectsAt(hits: seq<Hit>, k: nat)
    requires k < |hits|
    ensures |VulnerableRecords(hits)| == |hits| && |SnapshotJobs(hits)| == |hits|
    ensures VulnerableRecords(hits)[k] == Truncate(hits[k].results)
    ensures SnapshotJobs(hits)[k] == SnapshotJob(hits[k].poc, hits[k].results)
    decreases |hits|
  {
    var init := hits[..|hits| - 1];
    if k < |hits| - 1 {
      HitsEffectsAt(init, k);
    } else if |init| > 0 {
      HitsEffectsAt(init, 0);
    }
  }

  /** The records and jobs of two runs of hits are those of the first run followed by those of the second. */
  lemma {:induction false} HitsEffectsAppend(a: seq<Hit>, b: seq<Hit>)
    ensures VulnerableRecords(a + b) == VulnerableRecords(a) + VulnerableRecords(b)
    ensures SnapshotJobs(a + b) == SnapshotJobs(a) + SnapshotJobs(b)
    decreases |b|
  {
    if b != [] {
      var b' := b[..|b| - 1];
      AppendInit(a, b);
      HitsEffectsAppend(a, b');
    } else {
      assert a + b == a;
    }
  }

  /**
   * PoC verification does not stop at the first success: the hits of a PoC
   * list are the hits of its first part followed by those of the rest.
   */
  lemma {:induction false} PocHitsAppend(ip: string, port: Port, a: seq<Poc>, b: seq<Poc>, verify: (Poc, string, Port) -> seq<string>)
    ensures PocHits(ip, port, a + b, verify) == PocHits(ip, port, a, verify) + PocHits(ip, port, b, verify)
    decreases |b|
  {
    if b == [] {
      assert a + b == a;
    } else {
      var b', last := b[..|b| - 1], b[|b| - 1];
      AppendInit(a, b);
      PocHitsAppend(ip, port, a, b', verify);
      var results := verify(last, ip, port);
      Assoc(PocHits(ip, port, a, verify), PocHits(ip, port, b', verify),
        if results != [] then [Hit(port, last, results)] else []);
    }
  }

  /** The hits of a port list are the hits of its first part followed by those of the rest. */
  lemma {:induction false} ScanHitsAppend(ip: string, a: seq<Port>, b: seq<Port>, env: Env)
    ensures ScanHits(ip, a + b, env) == ScanHits(ip, a, env) + ScanHits(ip, b, env)
    ensures NotVulnerable(ip, a + b, env) == NotVulnerable(ip, a, env) + NotVulnerable(ip, b, env)
    decreases |b|
  {
    if b == [] {
      assert a + b == a;
    } else {
      var b', last := b[..|b| - 1], b[|b| - 1];
      AppendInit(a, b);
      ScanHitsAppend(ip, a, b', env);
      Assoc(ScanHits(ip, a, env), ScanHits(ip, b', env), PortHits(ip, last, env));
      Assoc(NotVulnerable(ip, a, env), NotVulnerable(ip, b', env), PortNotVulnerable(ip, last, env));
    }
  }

  /** A hit on a port is exactly a PoC of the list whose `verify` returned a non-empty result. */
  lemma {:induction false} PocHitsMember(ip: string, port: Port, pocs: seq<Poc>, verify: (Poc, string, Port) -> seq<string>, h: Hit)
    ensures h in PocHits(ip, port, pocs, verify) <==>
      h.port == port && h.poc in pocs && h.results == verify(h.poc, ip, port) && h.results != []
    decreases |pocs|
  {
    if pocs != [] {
      var init := pocs[..|pocs| - 1];
      PocHitsMember(ip, port, init, verify, h);
      assert pocs == init + [pocs[|pocs| - 1]];
    }
  }

  /** No hit on a port exactly when no PoC of the list verifies. */
  lemma PocHitsEmpty(ip: string, port: Port, pocs: seq<Poc>, verify: (Poc, string, Port) -> seq<string>)
    ensures PocHits(ip, port, pocs, verify) == [] <==> forall poc :: poc in pocs ==> verify(poc, ip, port) == []
  {
    var hits := PocHits(ip, port, pocs, verify);
    if hits != [] {
      PocHitsMember(ip, port, pocs, verify, hits[0]);
    } else {
      forall poc | poc in pocs ensures verify(poc, ip, port) == [] {
        PocHitsMember(ip, port, pocs, verify, Hit(port, poc, verify(poc, ip, port)));
      }
    }
  }

  /**
   * A hit of a target is exactly a (port, PoC) pair where the port is open
   * and fingerprinted, the PoC is registered for that product, and its
   * `verify` returned a non-empty result, which the hit carries.
   */
  lemma {:induction false} ScanHitsMember(ip: string, ports: seq<Port>, env: Env, h: Hit)
    ensures h in ScanHits(ip, ports, env) <==>
      var product := Product(ip, h.port, env);
      && h.port in ports && product != ""
      && h.poc in env.registry(product)
      && h.results == env.probe.verify(h.poc, ip, h.port) && h.results != []
    decreases |ports|
  {
    if ports != [] {
      var init, last := ports[..|ports| - 1], ports[|ports| - 1];
      ScanHitsMember(ip, init, env, h);
      assert ports == init + [last];
      var product := Product(ip, last, env);
      if product != "" {
        PocHitsMember(ip, last, env.registry(product), env.probe.verify, h);
      }
    }
  }

  /**
   * A not-vulnerable record of a target is exactly `[ip, str(port), product]`
   * for a port that is open and fingerprinted and on which no PoC registered
   * for the product verified.
   */
  lemma {:induction false} NotVulnerableMember(ip: string, ports: seq<Port>, env: Env, record: seq<string>)
    ensures record in NotVulnerable(ip, ports, env) <==>
      exists port :: port in ports && Silent(ip, port, env) && record == [ip, PortText(port), Product(ip, port, env)]
    decreases |ports|
  {
    if ports != [] {
      var init, last := ports[..|ports| - 1], ports[|ports| - 1];
      NotVulnerableMember(ip, init, env, record);
      assert ports == init + [last];
      var product := Product(ip, last, env);
      if product != "" {
        PocHitsEmpty(ip, last, env.registry(product), env.probe.verify);
      }
      if record in NotVulnerable(ip, ports, env) && record !in NotVulnerable(ip, init, env) {
        assert Silent(ip, last, env) && record == [ip, PortText(last), product];
      }
    }
  }

  /** An open, fingerprinted port on which no registered PoC verifies. */
  predicate Silent(ip: string, port: Port, env: Env)
  {
    var product := Product(ip, port, env);
    product != "" && forall poc :: poc in env.registry(product) ==> env.probe.verify(poc, ip, port) == []
  }

  /** At most one not-vulnerable record per port; closed or unidentified ports leave no trace. */
  lemma {:induction false} QuietPorts(ip: string, ports: seq<Port>, env: Env)
    ensures |NotVulnerable(ip, ports, env)| <= |ports|
    ensures (forall k :: 0 <= k < |ports| ==> Product(ip, ports[k], env) == "") ==>
      ScanHits(ip, ports, env) == [] && NotVulnerable(ip, ports, env) == []
    decreases |ports|
  {
    if ports != [] {
      var init := ports[..|ports| - 1];
      QuietPorts(ip, init, env);
      assert forall k :: 0 <= k < |init| ==> init[k] == ports[k];
    }
  }

  /** The hits of one target string, as `_scan` computes them. */
  function TargetHits(target: string, configured: seq<int>, env: Env): seq<Hit>
  {
    var t := ParseTarget(target);
    ScanHits(t.ip, PortsOf(t, configured), env)
  }

  /** The hits of a sequence of targets, target by target. */
  function RunHits(targets: seq<string>, configured: seq<int>, env: Env): seq<Hit>
    decreases |targets|
  {
    if targets == [] then []
    else RunHits(targets[..|targets| - 1], configured, env) + TargetHits(targets[|targets| - 1], configured, env)
  }

  /** The not-vulnerable records of one target string, as `_scan` writes them. */
  function TargetNotVulnerable(target: string, configured: seq<int>, env: Env): seq<seq<string>>
  {
    var t := ParseTarget(target);
    NotVulnerable(t.ip, PortsOf(t, configured), env)
  }

  /** The not-vulnerable records of a sequence of targets, target by target. */
  function RunNotVulnerable(targets: seq<string>, configured: seq<int>, env: Env): seq<seq<string>>
    decreases |targets|
  {
    if targets == [] then []
    else RunNotVulnerable(targets[..|targets| - 1], configured, env) + TargetNotVulnerable(targets[|targets| - 1], configured, env)
  }

  /** Scanning one more target appends exactly that target's hits and not-vulnerable records. */
  lemma RunStep(targets: seq<string>, i: nat, configured: seq<int>, env: Env)
    requires i < |targets|
    ensures RunHits(targets[..i + 1], configured, env)
      == RunHits(targets[..i], configured, env) + TargetHits(targets[i], configured, env)
    ensures RunNotVulnerable(targets[..i + 1], configured, env)
      == RunNotVulnerable(targets[..i], configured, env) + TargetNotVulnerable(targets[i], configured, env)
  {
    assert targets[..i + 1][..i] == targets[..i];
  }

  /** The result the camera PoC of `OneFindingScenario` returns: seven fields. */
  function CameraResult(): seq<string>
  {
    ["10.0.0.1", "80", "camera-x-1", "a", "b", "c", "name"]
  }

  /** Every port open and fingerprinted as `camera-x`, whose one PoC verifies. */
  function CameraEnv(): Env
  {
    Env(1.0, (product: string) => if product == "camera-x" then [Poc("camera-x-1")] else [],
      Probe((ip: string, port: Port, timeout: real) => true,
            (ip: string, port: Port) => "camera-x",
            (poc: Poc, ip: string, port: Port) => CameraResult()))
  }

  /** `ip:port` with no other `:` parses back to exactly that address and port text. */
  lemma ParseIpPort(ip: string, port: string)
    requires ':' !in ip && ':' !in port
    ensures ParseTarget(ip + ":" + port) == Target(ip, Some(port))
  {
    var target := ip + ":" + port;
    var t := ParseTarget(target);
    assert target[|ip|] == ':';
    assert forall k :: 0 <= k < |ip| ==> target[k] == ip[k];
    assert |t.ip| == |ip|;
    assert t.ip == ip;
    var p, start := t.port.value, |ip| + 1;
    assert forall k :: 0 <= k < |port| ==> target[start + k] == port[k];
    assert |p| == |port|;
    assert target[start..start + |port|] == port;
  }

  /** A single identified port whose product has one PoC, and that PoC verifies: one hit, no other record. */
  lemma SinglePocPort(ip: string, port: Port, env: Env, poc: Poc)
    requires Product(ip, port, env) != ""
    requires env.registry(Product(ip, port, env)) == [poc]
    requires env.probe.verify(poc, ip, port) != []
    ensures ScanHits(ip, [port], env) == [Hit(port, poc, env.probe.verify(poc, ip, port))]
    ensures NotVulnerable(ip, [port], env) == []
  {
    assert [port][..0] == [] && [poc][..0] == [];
    var hit := Hit(port, poc, env.probe.verify(poc, ip, port));
    assert PocHits(ip, port, [poc], env.probe.verify) == [hit];
    assert PortHits(ip, port, env) == [hit];
  }

  /**
   * One target, `10.0.0.1:80`, with the port open,
   * the product `camera-x`, one PoC returning a seven-field result. Only the
   * explicit port is scanned, the target yields one hit, written as one
   * six-field record, and no not-vulnerable record.
   */
  lemma OneFindingScenario()
    ensures
      var t := ParseTarget("10.0.0.1:80");
      var ports := PortsOf(t, [22, 80]);
      var hits := ScanHits(t.ip, ports, CameraEnv());
      && ports == [Given("80")]
      && hits == [Hit(Given("80"), Poc("camera-x-1"), CameraResult())]
      && VulnerableRecords(hits) == [["10.0.0.1", "80", "camera-x-1", "a", "b", "c"]]
      && NotVulnerable(t.ip, ports, CameraEnv()) == []
  {
    assert "10.0.0.1:80" == "10.0.0.1" + ":" + "80";
    ParseIpPort("10.0.0.1", "80");
    var env := CameraEnv();
    assert Product("10.0.0.1", Given("80"), env) == "camera-x";
    SinglePocPort("10.0.0.1", Given("80"), env, Poc("camera-x-1"));
    var hit := Hit(Given("80"), Poc("camera-x-1"), CameraResult());
    assert [hit][..0] == [];
    assert Truncate(CameraResult()) == ["10.0.0.1", "80", "camera-x-1", "a", "b", "c"];
  }

  /** Every port open and fingerprinted as `dvr`, whose two PoCs both verify. */
  function TwoPocEnv(): Env
  {
    Env(1.0, (product: string) => [Poc("a"), Poc("b")],
      Probe((ip: string, port: Port, timeout: real) => true,
            (ip: string, port: Port) => "dvr",
            (poc: Poc, ip: string, port: Port) => [poc.name]))
  }

  /**
   * `found` counts verified PoCs, not targets: one target whose product has
   * two PoCs that both verify yields two hits while `done` grows by one.
   */
  lemma TwoFindingsOneTarget()
    ensures |ScanHits("10.0.0.3", [Given("80")], TwoPocEnv())| == 2
  {
    var env := TwoPocEnv();
    var pocs := [Poc("a"), Poc("b")];
    assert [Given("80")][..0] == [];
    assert pocs[..1] == [Poc("a")] && pocs[..1][..0] == [];
    assert env.registry("dvr") == pocs;
    assert |PocHits("10.0.0.3", Given("80"), pocs, env.probe.verify)| == 2;
  }

  /**
   * The progress store `_scan` writes to: the target counters, the two
   * append-only result logs and the number of running-state checkpoints.
   */
  class Data {
    var total: int
    var done: int
    var found: int
    var vulnerable: seq<seq<string>>
    var notVulnerable: seq<seq<string>>
    var checkpoints: nat

    constructor (total: int, done: int, found: int)
      ensures this.total == total && this.done == done && this.found == found
      ensures vulnerable == [] && notVulnerable == [] && checkpoints == 0
    {
      this.total, this.done, this.found := total, done, found;
      vulnerable, notVulnerable, checkpoints := [], [], 0;
    }

    method AddFound()
      modifies this`found
      ensures found == old(found) + 1
    {
      found := found + 1;
    }

    method AddDone()
      modifies this`done
      ensures done == old(done) + 1
    {
      done := done + 1;
    }

    method AddVulnerable(record: seq<string>)
      modifies this`vulnerable
      ensures vulnerable == old(vulnerable) + [record]
    {
      vulnerable := vulnerable + [record];
    }

    method AddNotVulnerable(record: seq<string>)
      modifies this`notVulnerable
      ensures notVulnerable == old(notVulnerable) + [record]
    {
      notVulnerable := notVulnerable + [record];
    }

    method RecordRunningState()
      modifies this`checkpoints
      ensures checkpoints == old(checkpoints) + 1
    {
      checkpoints := checkpoints + 1;
    }
  }

  /**
   * The snapshot queue: every job put on it, in order, and the outstanding
   * task count `finish` reads. How `put` and the consumer move that count is
   * not part of this model, so `Put` promises nothing about it.
   */
  class SnapshotPipeline {
    var jobs: seq<SnapshotJob>
    var taskCount: int

    constructor ()
      ensures jobs == []
    {
      jobs, taskCount := [], 0;
    }

    method Put(job: SnapshotJob)
      modifies this
      ensures jobs == old(jobs) + [job]
    {
      jobs := jobs + [job];
    }
  }

  class Core {
    const config: Config
    const data: Data
    const pipeline: SnapshotPipeline
    const registry: string -> seq<Poc>

    constructor (config: Config, total: int, done: int, found: int, registry: string -> seq<Poc>)
      ensures this.config == config && this.registry == registry
      ensures fresh(data) && fresh(pipeline)
      ensures data.total == total && data.done == done && data.found == found
      ensures data.vulnerable == [] && data.notVulnerable == [] && data.checkpoints == 0 && pipeline.jobs == []
    {
      this.config := config;
      this.registry := registry;
      data := new Data(total, done, found);
      pipeline := new SnapshotPipeline();
    }

    /** The run is over when every target is done and no snapshot job is outstanding. */
    function Finish(): (finished: bool)
      reads data, pipeline
      ensures finished <==> data.done >= data.total && pipeline.taskCount <= 0
    {
      (data.done >= data.total) && (pipeline.taskCount <= 0)
    }

    function EnvFor(probe: Probe): Env
    {
      Env(config.timeout, registry, probe)
    }

    /**
     * One pass of `_scan`'s PoC loop: verify `poc`, and on a non-empty result
     * count it, log its first six fields and (with snapshots enabled) enqueue it.
     */
    method VerifyPoc(ip: string, port: Port, poc: Poc, probe: Probe) returns (verified: bool)
      modifies data`found, data`vulnerable, pipeline
      ensures
        var hits := PocHits(ip, port, [poc], probe.verify);
        && verified == (hits != [])
        && data.found == old(data.found) + |hits|
        && data.vulnerable == old(data.vulnerable) + VulnerableRecords(hits)
        && pipeline.jobs == old(pipeline.jobs) + (if config.disableSnapshot then [] else SnapshotJobs(hits))
    {
      var results := probe.verify(poc, ip, port);
      assert [poc][..0] == [];
      verified := results != [];
      if verified {
        data.AddFound();
        data.AddVulnerable(Truncate(results));
        if !config.disableSnapshot {
          pipeline.Put(SnapshotJob(poc, results));
        }
      }
    }

    /**
     * `_scan`'s PoC loop on one identified port: every PoC of `pocs` is
     * verified in order, without stopping at the first success, and each
     * success is counted, logged and (with snapshots enabled) enqueued.
     */
    method VerifyPocs(ip: string, port: Port, pocs: seq<Poc>, probe: Probe) returns (verified: bool)
      modifies data`found, data`vulnerable, pipeline
      ensures
        var hits := PocHits(ip, port, pocs, probe.verify);
        && verified == (hits != [])
        && data.found == old(data.found) + |hits|
        && data.vulnerable == old(data.vulnerable) + VulnerableRecords(hits)
        && pipeline.jobs == old(pipeline.jobs) + (if config.disableSnapshot then [] else SnapshotJobs(hits))
    {
      verified := false;
      var j := 0;
      while j < |pocs|
        invariant 0 <= j <= |pocs|
        invariant verified <==> PocHits(ip, port, pocs[..j], probe.verify) != []
        invariant data.found == old(data.found) + |PocHits(ip, port, pocs[..j], probe.verify)|
        invariant data.vulnerable == old(data.vulnerable) + VulnerableRecords(PocHits(ip, port, pocs[..j], probe.verify))
        invariant pipeline.jobs == old(pipeline.jobs)
          + (if config.disableSnapshot then [] else SnapshotJobs(PocHits(ip, port, pocs[..j], probe.verify)))
      {
        ghost var before := PocHits(ip, port, pocs[..j], probe.verify);
        ghost var pocHits := PocHits(ip, port, [pocs[j]], probe.verify);
        assert pocs[..j] + [pocs[j]] == pocs[..j + 1];
        PocHitsAppend(ip, port, pocs[..j], [pocs[j]], probe.verify);
        var hit := VerifyPoc(ip, port, pocs[j], probe);
        verified := verified || hit;
        HitsEffectsAppend(before, pocHits);
        Assoc(old(data.vulnerable), VulnerableRecords(before), VulnerableRecords(pocHits));
        Assoc(old(pipeline.jobs), SnapshotJobs(before), SnapshotJobs(pocHits));
        j := j + 1;
      }
      assert pocs[..j] == pocs;
    }

    /**
     * One pass of `_scan`'s port loop: probe the port, fingerprint it when
     * open, verify the product's PoCs, and record a not-vulnerable entry when
     * the port was identified but none verified.
     */
    method ScanPort(ip: string, port: Port, probe: Probe)
      modifies data`found, data`vulnerable, data`notVulnerable, pipeline
      ensures
        var hits := PortHits(ip, port, EnvFor(probe));
        && data.found == old(data.found) + |hits|
        && data.vulnerable == old(data.vulnerable) + VulnerableRecords(hits)
        && data.notVulnerable == old(data.notVulnerable) + PortNotVulnerable(ip, port, EnvFor(probe))
        && pipeline.jobs == old(pipeline.jobs) + (if config.disableSnapshot then [] else SnapshotJobs(hits))
    {
      if probe.portScan(ip, port, config.timeout) {
        var product := probe.fingerprint(ip, port);
        if product != "" {
          var verified := VerifyPocs(ip, port, registry(product), probe);
          if !verified {
            data.AddNotVulnerable([ip, PortText(port), product]);
          }
        }
      }
    }

    /** `_scan`'s port loop over a whole port list, in order. */
    method ScanPorts(ip: string, ports: seq<Port>, probe: Probe)
      modifies data`found, data`vulnerable, data`notVulnerable, pipeline
      ensures
        var hits := ScanHits(ip, ports, EnvFor(probe));
        && data.found == old(data.found) + |hits|
        && data.vulnerable == old(data.vulnerable) + VulnerableRecords(hits)
        && data.notVulnerable == old(data.notVulnerable) + NotVulnerable(ip, ports, EnvFor(probe))
        && pipeline.jobs == old(pipeline.jobs) + (if config.disableSnapshot then [] else SnapshotJobs(hits))
    {
      ghost var env := EnvFor(probe);
      var i := 0;
      while i < |ports|
        invariant 0 <= i <= |ports|
        invariant data.found == old(data.found) + |ScanHits(ip, ports[..i], env)|
        invariant data.vulnerable == old(data.vulnerable) + VulnerableRecords(ScanHits(ip, ports[..i], env))
        invariant data.notVulnerable == old(data.notVulnerable) + NotVulnerable(ip, ports[..i], env)
        invariant pipeline.jobs == old(pipeline.jobs)
          + (if config.disableSnapshot then [] else SnapshotJobs(ScanHits(ip, ports[..i], env)))
      {
        ghost var before := ScanHits(ip, ports[..i], env);
        ScanStep(ip, ports, i, env);
        ghost var portHits := PortHits(ip, ports[i], env);
        ScanPort(ip, ports[i], probe);
        HitsEffectsAppend(before, portHits);
        Assoc(old(data.vulnerable), VulnerableRecords(before), VulnerableRecords(portHits));
        Assoc(old(data.notVulnerable), NotVulnerable(ip, ports[..i], env), PortNotVulnerable(ip, ports[i], env));
        Assoc(old(pipeline.jobs), SnapshotJobs(before), SnapshotJobs(portHits));
        i := i + 1;
      }
      assert ports[..i] == ports;
    }

    /**
     * `_scan(target)`: the target's ports are scanned in order, the store and
     * the snapshot queue receive exactly the effects of the target's hits,
     * and `done` and the checkpoint count grow by one whatever happened.
     */
    method ScanTarget(target: string, probe: Probe)
      modifies data, pipeline
      ensures
        var t := ParseTarget(target);
        var ports := PortsOf(t, config.ports);
        var hits := ScanHits(t.ip, ports, EnvFor(probe));
        && data.found == old(data.found) + |hits|
        && data.vulnerable == old(data.vulnerable) + VulnerableRecords(hits)
        && data.notVulnerable == old(data.notVulnerable) + NotVulnerable(t.ip, ports, EnvFor(probe))
        && pipeline.jobs == old(pipeline.jobs) + (if config.disableSnapshot then [] else SnapshotJobs(hits))
      ensures data.total == old(data.total) && data.done == old(data.done) + 1
      ensures data.checkpoints == old(data.checkpoints) + 1
    {
      var t := ParseTarget(target);
      var ports := PortsOf(t, config.ports);
      ScanPorts(t.ip, ports, probe);
      data.AddDone();
      data.RecordRunningState();
    }

    /**
     * The scan loop of `run` with a pool of one task: `_scan` on every target
     * in feed order. Once every target is done, `finish` waits only on the
     * snapshot queue.
     */
    method ScanAll(targets: seq<string>, probe: Probe)
      modifies data, pipeline
      ensures data.total == old(data.total) && data.done == old(data.done) + |targets|
      ensures data.checkpoints == old(data.checkpoints) + |targets|
      ensures
        var hits := RunHits(targets, config.ports, EnvFor(probe));
        && data.found == old(data.found) + |hits|
        && data.vulnerable == old(data.vulnerable) + VulnerableRecords(hits)
        && data.notVulnerable == old(data.notVulnerable) + RunNotVulnerable(targets, config.ports, EnvFor(probe))
        && pipeline.jobs == old(pipeline.jobs) + (if config.disableSnapshot then [] else SnapshotJobs(hits))
      ensures old(data.done) + |targets| >= data.total ==> (Finish() <==> pipeline.taskCount <= 0)
    {
      ghost var env := EnvFor(probe);
      var i := 0;
      while i < |targets|
        invariant 0 <= i <= |targets|
        invariant data.total == old(data.total) && data.done == old(data.done) + i
        invariant data.checkpoints == old(data.checkpoints) + i
        invariant data.found == old(data.found) + |RunHits(targets[..i], config.ports, env)|
        invariant data.vulnerable == old(data.vulnerable) + VulnerableRecords(RunHits(targets[..i], config.ports, env))
        invariant data.notVulnerable == old(data.notVulnerable) + RunNotVulnerable(targets[..i], config.ports, env)
        invariant pipeline.jobs == old(pipeline.jobs)
          + (if config.disableSnapshot then [] else SnapshotJobs(RunHits(targets[..i], config.ports, env)))
      {
        ghost var before := RunHits(targets[..i], config.ports, env);
        ghost var targetHits := TargetHits(targets[i], config.ports, env);
        RunStep(targets, i, config.ports, env);
        ScanTarget(targets[i], probe);
        HitsEffectsAppend(before, targetHits);
        Assoc(old(data.vulnerable), VulnerableRecords(before), VulnerableRecords(targetHits));
        Assoc(old(data.notVulnerable), RunNotVulnerable(targets[..i], config.ports, env),
          TargetNotVulnerable(targets[i], config.ports, env));
        Assoc(old(pipeline.jobs), SnapshotJobs(before), SnapshotJobs(targetHits));
        i := i + 1;
      }
      assert targets[..i] == targets;
    }
  }
}
