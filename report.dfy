/**
 * The report `Core.report` prints at the end of a run, computed as data from
 * the lines of the vulnerable-results file: the records grouped by device
 * (the part of field 3 before its first `-`) and, within a device, by
 * vulnerability name (the last field), with occurrence counts, histogram bar
 * lengths scaled to the largest count, per-device totals and the grand total.
 */
module Report {

  import opened Wrappers
  import opened Text
  import opened Seqs

  /** `[l.strip().split(',') for l in lines if l.strip()]`: one record per non-blank line. */
  function Items(lines: seq<string>): seq<seq<string>>
    decreases |lines|
  {
    if lines == [] then []
    else
      var line := Strip(lines[|lines| - 1]);
      Items(lines[..|lines| - 1]) + (if line != [] then [Split(line, ',')] else [])
  }

  /** Records of a concatenation are the records of each part, in order. */
  lemma {:induction false} ItemsAppend(a: seq<string>, b: seq<string>)
    ensures Items(a + b) == Items(a) + Items(b)
    decreases |b|
  {
    if b == [] {
      assert a + b == a;
    } else {
      var b', last := b[..|b| - 1], b[|b| - 1];
      AppendInit(a, b);
      ItemsAppend(a, b');
      var line := Strip(last);
      Assoc(Items(a), Items(b'), if line != [] then [Split(line, ',')] else []);
    }
  }

  /**
   * Blank lines (empty or all whitespace) are ignored wherever they occur,
   * and every other line becomes exactly one record, its comma-separated fields.
   */
  lemma BlankLinesIgnored(a: seq<string>, line: string, b: seq<string>)
    ensures Strip(line) == [] ==> Items(a + [line] + b) == Items(a + b)
    ensures Strip(line) != [] ==> Items(a + [line] + b) == Items(a) + [Split(Strip(line), ',')] + Items(b)
  {
    ItemsAppend(a + [line], b);
    ItemsAppend(a, [line]);
    ItemsAppend(a, b);
    assert [line][..0] == [];
    var single := Items([line]);
    if Strip(line) == [] {
      assert single == [];
      assert Items(a) + single == Items(a);
    } else {
      assert single == [Split(Strip(line), ',')];
    }
  }

  /** `field.split('-')[0]`: the text of the field before its first `-`. */
  function DeviceOf(field: string): (device: string)
    ensures '-' !in device
    ensures |device| <= |field| && field[..|device|] == device
    ensures |device| < |field| ==> field[|device|] == '-'
    ensures '-' !in field ==> device == field
  {
    SplitFirst(field, '-');
    Split(field, '-')[0]
  }

  /** What the report reads of one record: its device and its vulnerability name. */
  datatype Finding = Finding(device: string, vul: string)

  /** `i[2].split('-')[0], i[-1]` for a record with at least three fields. */
  function FindingOf(item: seq<string>): Finding
    requires |item| >= 3
  {
    Finding(DeviceOf(item[2]), item[|item| - 1])
  }

  predicate WellFormed(items: seq<seq<string>>)
  {
    forall k :: 0 <= k < |items| ==> |items[k]| >= 3
  }

  function Findings(items: seq<seq<string>>): (fs: seq<Finding>)
    requires WellFormed(items)
    ensures |fs| == |items|
    ensures forall k :: 0 <= k < |items| ==> fs[k] == FindingOf(items[k])
  {
    seq(|items|, k requires 0 <= k < |items| => FindingOf(items[k]))
  }

  /** The count of one vulnerability name within a device (`results[dev][vul]`). */
  datatype VulCount = VulCount(name: string, count: nat)

  /** One device's vulnerability counts, in the order the names were first seen. */
  datatype DeviceGroup = DeviceGroup(device: string, vuls: seq<VulCount>)

  predicate Distinct(xs: seq<string>)
  {
    forall i, j :: 0 <= i < j < |xs| ==> xs[i] != xs[j]
  }

  /**
   * The values of `xs` in the order of their first occurrence: the key order
   * of a Python dict. The contract states no repeats and the same members;
   * the body is the reference for the order.
   */
  function Dedup(xs: seq<string>): (r: seq<string>)
    ensures Distinct(r)
    ensures forall x :: x in r <==> x in xs
    decreases |xs|
  {
    if xs == [] then []
    else
      var r := Dedup(xs[..|xs| - 1]);
      var x := xs[|xs| - 1];
      assert forall y :: y in xs <==> y in xs[..|xs| - 1] || y == x by {
        assert xs == xs[..|xs| - 1] + [x];
      }
      if x in r then r else r + [x]
  }

  function Names(vs: seq<VulCount>): (names: seq<string>)
    ensures |names| == |vs| && forall k :: 0 <= k < |vs| ==> names[k] == vs[k].name
  {
    seq(|vs|, k requires 0 <= k < |vs| => vs[k].name)
  }

  function Devices(gs: seq<DeviceGroup>): (devices: seq<string>)
    ensures |devices| == |gs| && forall i :: 0 <= i < |gs| ==> devices[i] == gs[i].device
  {
    seq(|gs|, i requires 0 <= i < |gs| => gs[i].device)
  }

  /** `results[dev][vul]` on a device's counts: the count of the first entry named `vul`, or 0. */
  function VulCountOf(vs: seq<VulCount>, vul: string): nat
  {
    if vs == [] then 0 else if vs[0].name == vul then vs[0].count else VulCountOf(vs[1..], vul)
  }

  /** `results[dev]`: the counts of the first group of `device`, or none. */
  function GroupOf(gs: seq<DeviceGroup>, device: string): seq<VulCount>
  {
    if gs == [] then [] else if gs[0].device == device then gs[0].vuls else GroupOf(gs[1..], device)
  }

  /** The sum of a device's counts (`dev_sum`). */
  function Total(vs: seq<VulCount>): nat
  {
    if vs == [] then 0 else vs[0].count + Total(vs[1..])
  }

  /** The sum of all devices' totals. */
  function SumTotals(gs: seq<DeviceGroup>): nat
  {
    if gs == [] then 0 else Total(gs[0].vuls) + SumTotals(gs[1..])
  }

  predicate Positive(vs: seq<VulCount>)
  {
    forall k :: 0 <= k < |vs| ==> vs[k].count >= 1
  }

  predicate AllPositive(gs: seq<DeviceGroup>)
  {
    forall i :: 0 <= i < |gs| ==> Positive(gs[i].vuls)
  }

  /** `results[dev][vul] += 1` on one device's counts: a new name enters last with count 1. */
  function BumpVul(vs: seq<VulCount>, vul: string): (r: seq<VulCount>)
    ensures Positive(vs) ==> Positive(r)
    ensures Total(r) == Total(vs) + 1
  {
    if vs == [] then [VulCount(vul, 1)]
    else if vs[0].name == vul then [VulCount(vul, vs[0].count + 1)] + vs[1..]
    else [vs[0]] + BumpVul(vs[1..], vul)
  }

  /** `results[dev][vul] += 1` on the nested defaultdict: a new device enters last. */
  function Bump(gs: seq<DeviceGroup>, f: Finding): (r: seq<DeviceGroup>)
    ensures AllPositive(gs) ==> AllPositive(r)
    ensures SumTotals(r) == SumTotals(gs) + 1
  {
    if gs == [] then
      var g := DeviceGroup(f.device, [VulCount(f.vul, 1)]);
      assert [g][1..] == [] && g.vuls[1..] == [];
      assert Total(g.vuls) == 1;
      assert SumTotals([g]) == Total(g.vuls) + SumTotals([]);
      [g]
    else if gs[0].device == f.device then [DeviceGroup(f.device, BumpVul(gs[0].vuls, f.vul))] + gs[1..]
    else [gs[0]] + Bump(gs[1..], f)
  }

  /** The report's loop over the records: every finding counted once, in record order. */
  function Tally(fs: seq<Finding>): (gs: seq<DeviceGroup>)
    ensures AllPositive(gs)
    ensures SumTotals(gs) == |fs|
    decreases |fs|
  {
    if fs == [] then [] else Bump(Tally(fs[..|fs| - 1]), fs[|fs| - 1])
  }

  /** The same loop restricted to one device's names: the reference for a group. */
  function VulTally(vuls: seq<string>): seq<VulCount>
    decreases |vuls|
  {
    if vuls == [] then [] else BumpVul(VulTally(vuls[..|vuls| - 1]), vuls[|vuls| - 1])
  }

  /** The vulnerability names of the findings of one device, in record order. */
  function VulsFor(fs: seq<Finding>, device: string): seq<string>
    decreases |fs|
  {
    if fs == [] then []
    else
      var f := fs[|fs| - 1];
      VulsFor(fs[..|fs| - 1], device) + (if f.device == device then [f.vul] else [])
  }

  function DeviceSeq(fs: seq<Finding>): (ds: seq<string>)
    ensures |ds| == |fs| && forall k :: 0 <= k < |fs| ==> ds[k] == fs[k].device
  {
    seq(|fs|, k requires 0 <= k < |fs| => fs[k].device)
  }

  lemma NamesCons(v: VulCount, vs: seq<VulCount>)
    ensures Names([v] + vs) == [v.name] + Names(vs)
  {
    assert Names([v] + vs) == [v.name] + Names(vs);
  }

  /** A name already counted keeps its place; a new name is added last. */
  lemma {:induction false} BumpVulNames(vs: seq<VulCount>, vul: string)
    ensures Names(BumpVul(vs, vul)) == if vul in Names(vs) then Names(vs) else Names(vs) + [vul]
    decreases |vs|
  {
    if vs == [] {
      NamesCons(VulCount(vul, 1), []);
    } else {
      var rest := vs[1..];
      assert vs == [vs[0]] + rest;
      NamesCons(vs[0], rest);
      if vs[0].name == vul {
        NamesCons(VulCount(vul, vs[0].count + 1), rest);
      } else {
        BumpVulNames(rest, vul);
        NamesCons(vs[0], BumpVul(rest, vul));
        Assoc([vs[0].name], Names(rest), [vul]);
      }
    }
  }

  /** `results[dev][vul] += 1` adds one to that name's count and changes no other. */
  lemma {:induction false} BumpVulCount(vs: seq<VulCount>, vul: string, other: string)
    ensures VulCountOf(BumpVul(vs, vul), other) == VulCountOf(vs, other) + (if other == vul then 1 else 0)
    decreases |vs|
  {
    if vs != [] && vs[0].name != vul {
      var r := BumpVul(vs, vul);
      BumpVulCount(vs[1..], vul, other);
      assert r[1..] == BumpVul(vs[1..], vul);
    }
  }

  lemma DevicesCons(g: DeviceGroup, gs: seq<DeviceGroup>)
    ensures Devices([g] + gs) == [g.device] + Devices(gs)
  {
    assert Devices([g] + gs) == [g.device] + Devices(gs);
  }

  /** A device already counted keeps its place; a new device is added last. */
  lemma {:induction false} BumpDevices(gs: seq<DeviceGroup>, f: Finding)
    ensures Devices(Bump(gs, f)) == if f.device in Devices(gs) then Devices(gs) else Devices(gs) + [f.device]
    decreases |gs|
  {
    if gs == [] {
      DevicesCons(DeviceGroup(f.device, [VulCount(f.vul, 1)]), []);
    } else {
      var rest := gs[1..];
      assert gs == [gs[0]] + rest;
      DevicesCons(gs[0], rest);
      if gs[0].device == f.device {
        DevicesCons(DeviceGroup(f.device, BumpVul(gs[0].vuls, f.vul)), rest);
      } else {
        BumpDevices(rest, f);
        DevicesCons(gs[0], Bump(rest, f));
        Assoc([gs[0].device], Devices(rest), [f.device]);
      }
    }
  }

  /** Counting a finding changes the counts of its own device only. */
  lemma {:induction false} BumpGroup(gs: seq<DeviceGroup>, f: Finding, device: string)
    ensures GroupOf(Bump(gs, f), device) ==
      if device == f.device then BumpVul(GroupOf(gs, device), f.vul) else GroupOf(gs, device)
    decreases |gs|
  {
    if gs != [] && gs[0].device != f.device {
      var r := Bump(gs, f);
      BumpGroup(gs[1..], f, device);
      assert r[1..] == Bump(gs[1..], f);
    }
  }

  /** Counting one device's names keeps them in first-seen order, each once. */
  lemma {:induction false} VulTallyNames(vuls: seq<string>)
    ensures Names(VulTally(vuls)) == Dedup(vuls)
    decreases |vuls|
  {
    if vuls != [] {
      var init, last := vuls[..|vuls| - 1], vuls[|vuls| - 1];
      VulTallyNames(init);
      BumpVulNames(VulTally(init), last);
    }
  }

  /** Counting one device's names gives each name the number of times it occurs. */
  lemma {:induction false} VulTallyCount(vuls: seq<string>, vul: string)
    ensures VulCountOf(VulTally(vuls), vul) == multiset(vuls)[vul]
    decreases |vuls|
  {
    if vuls != [] {
      var init, last := vuls[..|vuls| - 1], vuls[|vuls| - 1];
      VulTallyCount(init, vul);
      BumpVulCount(VulTally(init), last, vul);
      Snoc(vuls);
    }
  }

  /** The devices of the tally appear in first-seen order, each once. */
  lemma {:induction false} TallyDevices(fs: seq<Finding>)
    ensures Devices(Tally(fs)) == Dedup(DeviceSeq(fs))
    decreases |fs|
  {
    if fs != [] {
      var init, last := fs[..|fs| - 1], fs[|fs| - 1];
      TallyDevices(init);
      BumpDevices(Tally(init), last);
      assert DeviceSeq(fs)[..|fs| - 1] == DeviceSeq(init);
    }
  }

  /** The counts of each device are the tally of that device's names alone. */
  lemma {:induction false} TallyGroup(fs: seq<Finding>, device: string)
    ensures GroupOf(Tally(fs), device) == VulTally(VulsFor(fs, device))
    decreases |fs|
  {
    if fs != [] {
      var init, last := fs[..|fs| - 1], fs[|fs| - 1];
      TallyGroup(init, device);
      BumpGroup(Tally(init), last, device);
      var vs := VulsFor(init, device);
      if last.device == device {
        assert VulsFor(fs, device) == vs + [last.vul];
        assert (vs + [last.vul])[..|vs|] == vs;
      } else {
        assert VulsFor(fs, device) == vs;
      }
    }
  }

  /** The names of one device's findings hold each name as often as the findings hold that pair. */
  lemma {:induction false} VulsForCount(fs: seq<Finding>, device: string, vul: string)
    ensures multiset(VulsFor(fs, device))[vul] == multiset(fs)[Finding(device, vul)]
    decreases |fs|
  {
    if fs != [] {
      var init, last := fs[..|fs| - 1], fs[|fs| - 1];
      VulsForCount(init, device, vul);
      Snoc(fs);
    }
  }

  /** With distinct device names, `results[dev]` finds each group at its own index. */
  lemma {:induction false} GroupAt(gs: seq<DeviceGroup>, i: nat)
    requires Distinct(Devices(gs)) && i < |gs|
    ensures GroupOf(gs, gs[i].device) == gs[i].vuls
    decreases i
  {
    if i > 0 {
      assert Devices(gs[1..]) == Devices(gs)[1..];
      assert gs[0].device == Devices(gs)[0] != Devices(gs)[i] == gs[i].device;
      GroupAt(gs[1..], i - 1);
    }
  }

  /** With distinct names, `results[dev][vul]` finds each count at its own index. */
  lemma {:induction false} CountAt(vs: seq<VulCount>, k: nat)
    requires Distinct(Names(vs)) && k < |vs|
    ensures VulCountOf(vs, vs[k].name) == vs[k].count
    decreases k
  {
    if k > 0 {
      assert Names(vs[1..]) == Names(vs)[1..];
      assert vs[0].name == Names(vs)[0] != Names(vs)[k] == vs[k].name;
      CountAt(vs[1..], k - 1);
    }
  }

  /** The tally has one group per device and one entry per name within a group. */
  lemma TallyDistinct(fs: seq<Finding>, i: nat)
    requires i < |Tally(fs)|
    ensures Distinct(Devices(Tally(fs)))
    ensures Distinct(Names(Tally(fs)[i].vuls))
    ensures Tally(fs)[i].vuls == VulTally(VulsFor(fs, Tally(fs)[i].device))
  {
    var gs := Tally(fs);
    TallyDevices(fs);
    GroupAt(gs, i);
    TallyGroup(fs, gs[i].device);
    VulTallyNames(VulsFor(fs, gs[i].device));
  }

  /**
   * Each count of the tally is the number of findings with that device and
   * that vulnerability name.
   */
  lemma TallyCount(fs: seq<Finding>, i: nat, k: nat)
    requires i < |Tally(fs)| && k < |Tally(fs)[i].vuls|
    ensures var g := Tally(fs)[i];
      g.vuls[k].count == multiset(fs)[Finding(g.device, g.vuls[k].name)]
  {
    var g := Tally(fs)[i];
    TallyDistinct(fs, i);
    CountAt(g.vuls, k);
    VulTallyCount(VulsFor(fs, g.device), g.vuls[k].name);
    VulsForCount(fs, g.device, g.vuls[k].name);
  }

  /** Every finding is counted: its device has a group and its name an entry in that group. */
  lemma TallyComplete(fs: seq<Finding>, f: Finding) returns (i: nat, k: nat)
    requires f in fs
    ensures i < |Tally(fs)| && k < |Tally(fs)[i].vuls|
    ensures Tally(fs)[i].device == f.device && Tally(fs)[i].vuls[k].name == f.vul
  {
    var gs := Tally(fs);
    TallyDevices(fs);
    var j :| 0 <= j < |fs| && fs[j] == f;
    assert DeviceSeq(fs)[j] == f.device;
    assert f.device in Devices(gs);
    i :| 0 <= i < |gs| && Devices(gs)[i] == f.device;
    TallyDistinct(fs, i);
    VulsForCount(fs, f.device, f.vul);
    assert f.vul in multiset(VulsFor(fs, f.device));
    VulTallyNames(VulsFor(fs, f.device));
    assert f.vul in Names(gs[i].vuls);
    k :| 0 <= k < |gs[i].vuls| && Names(gs[i].vuls)[k] == f.vul;
  }

  /** The largest count of one device (0 for none). */
  function MaxIn(vs: seq<VulCount>): (m: nat)
    ensures forall k :: 0 <= k < |vs| ==> vs[k].count <= m
    ensures vs != [] ==> exists k :: 0 <= k < |vs| && vs[k].count == m
    ensures vs == [] ==> m == 0
  {
    if vs == [] then 0
    else
      var rest := MaxIn(vs[1..]);
      assert forall k :: 1 <= k < |vs| ==> vs[k] == vs[1..][k - 1];
      if vs[0].count >= rest then vs[0].count else rest
  }

  /** `results_max`: the largest count over every device and name (0 for none). */
  function MaxCount(gs: seq<DeviceGroup>): (m: nat)
    ensures forall i, k :: 0 <= i < |gs| && 0 <= k < |gs[i].vuls| ==> gs[i].vuls[k].count <= m
    ensures m == 0 || exists i, k :: 0 <= i < |gs| && 0 <= k < |gs[i].vuls| && gs[i].vuls[k].count == m
  {
    if gs == [] then 0
    else
      var rest := MaxCount(gs[1..]);
      assert forall i :: 1 <= i < |gs| ==> gs[i] == gs[1..][i - 1];
      if MaxIn(gs[0].vuls) >= rest then MaxIn(gs[0].vuls) else rest
  }

  /**
   * `int(count / max * 25)`, on integers: the bar of a count is between 0
   * and 25 blocks, and full exactly for the largest count.
   */
  function Blocks(count: nat, max: nat): (blocks: nat)
    requires 0 < count <= max
    ensures blocks <= 25
    ensures blocks == 25 <==> count == max
    ensures blocks * max <= count * 25 < (blocks + 1) * max
  {
    ScaleFacts(count, max);
    count * 25 / max
  }

  lemma ScaleFacts(count: nat, max: nat)
    requires 0 < count <= max
    ensures var b := count * 25 / max;
      && b * max <= count * 25 < (b + 1) * max
      && 0 <= b <= 25 && (b == 25 <==> count == max)
  {
    var b, r := count * 25 / max, count * 25 % max;
    assert count * 25 == b * max + r && 0 <= r < max;
    assert (25 - b) * max == 25 * (max - count) + r;
    assert (24 - b) * max == (25 - b) * max - max;
    assert (b + 1) * max == b * max + max;
    MulSign(25 - b, max);
    MulSign(24 - b, max);
    MulSign(b + 1, max);
  }

  lemma MulSign(y: int, m: int)
    requires m > 0
    ensures y < 0 ==> y * m < 0
    ensures y >= 0 ==> y * m >= 0
  {
  }

  /** One histogram line: a name, its count and its bar length. */
  datatype Bar = Bar(name: string, count: nat, blocks: nat)

  /** One device's block of the report: its name, `dev_sum` and its bars. */
  datatype DeviceReport = DeviceReport(device: string, total: nat, bars: seq<Bar>)

  /** What the report prints: the device blocks, `results_sum` and `results_max`. */
  datatype Summary = Summary(devices: seq<DeviceReport>, sum: nat, max: nat)

  /** The outcome of `report`: nothing to print, a record too short to read, or the report. */
  datatype Outcome = NoRecords | Malformed(index: nat) | Reported(summary: Summary)

  /** The histogram lines of one device, in the order of its names. */
  function RenderBars(vs: seq<VulCount>, max: nat): (bars: seq<Bar>)
    requires forall k :: 0 <= k < |vs| ==> 0 < vs[k].count <= max
    ensures |bars| == |vs|
    ensures forall k :: 0 <= k < |vs| ==> bars[k] == Bar(vs[k].name, vs[k].count, Blocks(vs[k].count, max))
  {
    if vs == [] then []
    else [Bar(vs[0].name, vs[0].count, Blocks(vs[0].count, max))] + RenderBars(vs[1..], max)
  }

  /** The blocks of the report, one per device, in the order of the devices. */
  function RenderDevices(gs: seq<DeviceGroup>, max: nat): (ds: seq<DeviceReport>)
    requires forall i, k :: 0 <= i < |gs| && 0 <= k < |gs[i].vuls| ==> 0 < gs[i].vuls[k].count <= max
    ensures |ds| == |gs|
    ensures forall i :: 0 <= i < |gs| ==>
      ds[i] == DeviceReport(gs[i].device, Total(gs[i].vuls), RenderBars(gs[i].vuls, max))
  {
    if gs == [] then []
    else [DeviceReport(gs[0].device, Total(gs[0].vuls), RenderBars(gs[0].vuls, max))] + RenderDevices(gs[1..], max)
  }

  /** The printed report for a tally of `sum` records. */
  function Render(gs: seq<DeviceGroup>, sum: nat): Summary
    requires AllPositive(gs)
  {
    var max := MaxCount(gs);
    Summary(RenderDevices(gs, max), sum, max)
  }

  /** The index of the first record with fewer than three fields, where `i[2]` fails. */
  function FirstShort(items: seq<seq<string>>): (r: Option<nat>)
    ensures r.None? <==> WellFormed(items)
    ensures r.Some? ==> r.value < |items| && |items[r.value]| < 3 && WellFormed(items[..r.value])
    decreases |items|
  {
    if items == [] then None
    else
      var init := items[..|items| - 1];
      match FirstShort(init)
      case Some(k) => assert init[..k] == items[..k]; Some(k)
      case None => if |items[|items| - 1]| < 3 then assert init == items[..|items| - 1]; Some(|items| - 1) else None
  }

  /** Reading one more record adds its finding last. */
  lemma FindingsStep(items: seq<seq<string>>, k: nat)
    requires k < |items| && WellFormed(items[..k]) && |items[k]| >= 3
    ensures WellFormed(items[..k + 1])
    ensures Findings(items[..k + 1])[..k] == Findings(items[..k])
    ensures Findings(items[..k + 1])[k] == FindingOf(items[k])
  {
    assert forall j :: 0 <= j < k ==> items[..k + 1][j] == items[..k][j];
  }

  /** Counting one more record is one more `Bump` of the counts so far. */
  lemma TallyStep(items: seq<seq<string>>, k: nat)
    requires k < |items| && WellFormed(items[..k]) && |items[k]| >= 3
    ensures WellFormed(items[..k + 1])
    ensures Tally(Findings(items[..k + 1])) == Bump(Tally(Findings(items[..k])), FindingOf(items[k]))
  {
    FindingsStep(items, k);
    var fs := Findings(items[..k + 1]);
    assert fs[..|fs| - 1] == Findings(items[..k]);
  }

  /** The report for the records of the results file, once they are read. */
  function ReportOfItems(items: seq<seq<string>>): Outcome
  {
    if items == [] then NoRecords
    else
      match FirstShort(items)
      case Some(k) => Malformed(k)
      case None => Reported(Render(Tally(Findings(items)), |items|))
  }

  /** `Core.report` on the lines of the results file. */
  function ReportOf(lines: seq<string>): Outcome
  {
    ReportOfItems(Items(lines))
  }

  /**
   * `Core.report`'s aggregation: the records are read in order, each
   * counted under its device and vulnerability name, and the report is
   * rendered from the counts; a record too short to hold a device stops the
   * report before anything is printed.
   */
  method Report(lines: seq<string>) returns (outcome: Outcome)
    ensures outcome == ReportOf(lines)
  {
    var items := Items(lines);
    outcome := Aggregate(items);
  }

  method Aggregate(items: seq<seq<string>>) returns (outcome: Outcome)
    ensures outcome == ReportOfItems(items)
  {
    if items == [] {
      return NoRecords;
    }
    var groups, short := CountRecords(items);
    match short
    case Some(k) =>
      outcome := Malformed(k);
    case None =>
      WellFormedReport(items);
      outcome := Reported(Render(groups, |items|));
  }

  /**
   * The counting loop of `Core.report`: each record adds one to the count of
   * its device and vulnerability name; a record with fewer than three fields
   * stops the loop, as `i[2]` raises there.
   */
  method CountRecords(items: seq<seq<string>>) returns (groups: seq<DeviceGroup>, short: Option<nat>)
    ensures short == FirstShort(items)
    ensures short.None? ==> WellFormed(items) && groups == Tally(Findings(items))
  {
    groups := [];
    var k := 0;
    while k < |items|
      invariant 0 <= k <= |items|
      invariant WellFormed(items[..k])
      invariant groups == Tally(Findings(items[..k]))
    {
      if |items[k]| < 3 {
        FirstShortAt(items, k);
        return groups, Some(k);
      }
      TallyStep(items, k);
      groups := Bump(groups, FindingOf(items[k]));
      k := k + 1;
    }
    assert items[..k] == items;
    short := None;
  }

  /** With every record well formed, the report renders the tally of all of them. */
  lemma WellFormedReport(items: seq<seq<string>>)
    requires items != [] && WellFormed(items)
    ensures ReportOfItems(items) == Reported(Render(Tally(Findings(items)), |items|))
  {
  }

  /** A short record after well-formed ones is the first short record: the report stops at it. */
  lemma FirstShortAt(items: seq<seq<string>>, k: nat)
    requires k < |items| && WellFormed(items[..k]) && |items[k]| < 3
    ensures FirstShort(items) == Some(k)
    ensures ReportOfItems(items) == Malformed(k)
  {
  }

  /** The sum of the counts printed on a device's bars. */
  function BarCounts(bars: seq<Bar>): nat
  {
    if bars == [] then 0 else bars[0].count + BarCounts(bars[1..])
  }

  /** The sum of the device totals printed in a report. */
  function DeviceTotals(ds: seq<DeviceReport>): nat
  {
    if ds == [] then 0 else ds[0].total + DeviceTotals(ds[1..])
  }

  lemma {:induction false} BarsTotal(vs: seq<VulCount>, max: nat)
    requires forall k :: 0 <= k < |vs| ==> 0 < vs[k].count <= max
    ensures BarCounts(RenderBars(vs, max)) == Total(vs)
    decreases |vs|
  {
    if vs != [] {
      BarsTotal(vs[1..], max);
      assert RenderBars(vs, max)[1..] == RenderBars(vs[1..], max);
    }
  }

  lemma {:induction false} DevicesTotal(gs: seq<DeviceGroup>, max: nat)
    requires forall i, k :: 0 <= i < |gs| && 0 <= k < |gs[i].vuls| ==> 0 < gs[i].vuls[k].count <= max
    ensures DeviceTotals(RenderDevices(gs, max)) == SumTotals(gs)
    decreases |gs|
  {
    if gs != [] {
      DevicesTotal(gs[1..], max);
      assert RenderDevices(gs, max)[1..] == RenderDevices(gs[1..], max);
    }
  }

  /** A file has no records exactly when all its lines are blank. */
  lemma {:induction false} ItemsEmpty(lines: seq<string>)
    ensures Items(lines) == [] <==> forall l :: l in lines ==> Strip(l) == []
    decreases |lines|
  {
    if lines != [] {
      var init, last := lines[..|lines| - 1], lines[|lines| - 1];
      ItemsEmpty(init);
      assert forall l :: l in lines <==> l in init || l == last by {
        Snoc(lines);
      }
    }
  }

  /** The report has nothing to print exactly when all lines of the file are blank. */
  lemma NoRecordsIff(lines: seq<string>)
    ensures ReportOf(lines) == NoRecords <==> forall l :: l in lines ==> Strip(l) == []
  {
    ItemsEmpty(lines);
  }

  /**
   * The report stops at record `k` exactly when `k` is the first record with
   * fewer than three fields.
   */
  lemma MalformedIff(items: seq<seq<string>>, k: nat)
    ensures ReportOfItems(items) == Malformed(k) <==> k < |items| && |items[k]| < 3 && WellFormed(items[..k])
  {
    if k < |items| && |items[k]| < 3 && WellFormed(items[..k]) {
      FirstShortAt(items, k);
    }
  }

  /**
   * The totals of a report add up: `sum` is the number of records, the
   * device totals add up to `sum`, and each device's total is the sum of
   * the counts on its bars.
   */
  lemma ReportTotals(items: seq<seq<string>>)
    requires items != [] && WellFormed(items)
    ensures ReportOfItems(items).Reported?
    ensures var s := ReportOfItems(items).summary;
      && s.sum == |items|
      && DeviceTotals(s.devices) == s.sum
      && forall i :: 0 <= i < |s.devices| ==> s.devices[i].total == BarCounts(s.devices[i].bars)
  {
    var gs := Tally(Findings(items));
    var max := MaxCount(gs);
    WellFormedReport(items);
    var s := ReportOfItems(items).summary;
    DevicesTotal(gs, max);
    forall i | 0 <= i < |s.devices|
      ensures s.devices[i].total == BarCounts(s.devices[i].bars)
    {
      BarsTotal(gs[i].vuls, max);
    }
  }

  /**
   * The devices of a report appear once each, in the order of their first
   * record, and the bars of a device once per vulnerability name, in the
   * order of that name's first record for the device.
   */
  lemma ReportOrder(items: seq<seq<string>>)
    requires items != [] && WellFormed(items)
    ensures ReportOfItems(items).Reported?
    ensures var s := ReportOfItems(items).summary; var fs := Findings(items);
      var devices := Dedup(DeviceSeq(fs));
      && |s.devices| == |devices|
      && forall i :: 0 <= i < |s.devices| ==>
           && s.devices[i].device == devices[i]
           && var names := Dedup(VulsFor(fs, devices[i]));
              |s.devices[i].bars| == |names| && forall j :: 0 <= j < |names| ==> s.devices[i].bars[j].name == names[j]
  {
    var fs := Findings(items);
    var gs := Tally(fs);
    WellFormedReport(items);
    var s := ReportOfItems(items).summary;
    TallyDevices(fs);
    forall i | 0 <= i < |s.devices|
      ensures var names := Dedup(VulsFor(fs, gs[i].device));
        |s.devices[i].bars| == |names| && forall j :: 0 <= j < |names| ==> s.devices[i].bars[j].name == names[j]
    {
      TallyDistinct(fs, i);
      VulTallyNames(VulsFor(fs, gs[i].device));
    }
  }

  /**
   * Each bar counts the records of its device and vulnerability name, and
   * its length is between 0 and 25 blocks, full exactly for the largest count.
   */
  lemma ReportBars(items: seq<seq<string>>)
    requires items != [] && WellFormed(items)
    ensures ReportOfItems(items).Reported?
    ensures var s := ReportOfItems(items).summary;
      forall i, j :: 0 <= i < |s.devices| && 0 <= j < |s.devices[i].bars| ==>
        var d := s.devices[i]; var b := d.bars[j];
        && b.count == multiset(Findings(items))[Finding(d.device, b.name)]
        && 0 < b.count <= s.max
        && b.blocks <= 25
        && (b.blocks == 25 <==> b.count == s.max)
  {
    var fs := Findings(items);
    WellFormedReport(items);
    var s := ReportOfItems(items).summary;
    forall i, j | 0 <= i < |s.devices| && 0 <= j < |s.devices[i].bars|
      ensures s.devices[i].bars[j].count == multiset(fs)[Finding(s.devices[i].device, s.devices[i].bars[j].name)]
    {
      TallyCount(fs, i, j);
    }
  }

  /** Every record is shown: its device has a block and its vulnerability name a bar there. */
  lemma ReportComplete(items: seq<seq<string>>, k: nat)
    requires WellFormed(items) && k < |items|
    ensures ReportOfItems(items).Reported?
    ensures var s := ReportOfItems(items).summary; var item := items[k];
      exists i, j ::
        && 0 <= i < |s.devices| && 0 <= j < |s.devices[i].bars|
        && s.devices[i].device == DeviceOf(item[2]) && s.devices[i].bars[j].name == item[|item| - 1]
  {
    var fs := Findings(items);
    var gs := Tally(fs);
    WellFormedReport(items);
    var s := ReportOfItems(items).summary;
    var f := fs[k];
    var i, j := TallyComplete(fs, f);
    BarAt(gs, i, j);
    assert s.devices[i].device == f.device && s.devices[i].bars[j].name == f.vul;
  }

  /** The largest count is never 0 and its bar is full: some bar has exactly 25 blocks. */
  lemma ReportFullBar(items: seq<seq<string>>)
    requires items != [] && WellFormed(items)
    ensures ReportOfItems(items).Reported?
    ensures var s := ReportOfItems(items).summary;
      && s.max > 0
      && exists i, j :: 0 <= i < |s.devices| && 0 <= j < |s.devices[i].bars| && s.devices[i].bars[j].blocks == 25
  {
    var fs := Findings(items);
    var gs := Tally(fs);
    WellFormedReport(items);
    var s := ReportOfItems(items).summary;
    var i0, j0 := TallyComplete(fs, fs[0]);
    var i, j := MaxAt(gs, i0, j0);
    BarAt(gs, i, j);
    assert s.devices[i].bars[j].blocks == 25;
  }

  /** With some count present, the largest count is positive and held by some entry. */
  lemma MaxAt(gs: seq<DeviceGroup>, i0: nat, j0: nat) returns (i: nat, j: nat)
    requires AllPositive(gs) && i0 < |gs| && j0 < |gs[i0].vuls|
    ensures MaxCount(gs) > 0
    ensures i < |gs| && j < |gs[i].vuls| && gs[i].vuls[j].count == MaxCount(gs)
  {
    assert MaxCount(gs) >= gs[i0].vuls[j0].count >= 1;
    i, j :| 0 <= i < |gs| && 0 <= j < |gs[i].vuls| && gs[i].vuls[j].count == MaxCount(gs);
  }

  /** Each rendered bar is the count of its entry scaled against the largest count. */
  lemma BarAt(gs: seq<DeviceGroup>, i: nat, j: nat)
    requires AllPositive(gs) && i < |gs| && j < |gs[i].vuls|
    ensures var max := MaxCount(gs); var ds := RenderDevices(gs, max);
      && i < |ds| && ds[i].device == gs[i].device && j < |ds[i].bars|
      && ds[i].bars[j] == Bar(gs[i].vuls[j].name, gs[i].vuls[j].count, Blocks(gs[i].vuls[j].count, max))
  {
  }
}
