/** The two-tier facade (internal/cache/router.go): where an object goes, and why a key ends up in
    at most one tier although commits to the two tiers are not atomic together. */
module Router {
  import opened Objects
  import Inflight
  import Shards

  datatype Tier = RamTier | DiskTier

  function Sibling(t: Tier): Tier {
    if t == RamTier then DiskTier else RamTier
  }

  // ----- Placement -----

  const RAM_EXTENSIONS: set<string> := {".m3u8", ".jpg", ".jpeg", ".webp", ".png", ".gif"}

  datatype Config = Config(
    ramMaxBytes: int,
    diskMaxBytes: int,
    smallObjectThreshold: int,
    ramMaxObjectBytes: int,
    ramInflightBudget: int,
    tierExtensions: map<string, string>)

  const DEFAULT_RAM_MAX_OBJECT: int := 0x400_0000

  /** The limits as NewStore resolves them. */
  function Resolve(c: Config): (r: Config)
    ensures r.ramMaxObjectBytes <= r.ramMaxBytes
    ensures c.ramMaxBytes > 0 ==> r.ramMaxObjectBytes > 0 && r.ramInflightBudget > 0
  {
    var obj := if c.ramMaxObjectBytes <= 0 then DEFAULT_RAM_MAX_OBJECT else c.ramMaxObjectBytes;
    c.(ramMaxObjectBytes := if obj > c.ramMaxBytes then c.ramMaxBytes else obj,
       ramInflightBudget := if c.ramInflightBudget <= 0 then c.ramMaxBytes else c.ramInflightBudget)
  }

  /** The size policy; `ext` is the key's lower-cased extension, a negative size is unknown. */
  function PickTier(c: Config, ext: string, size: int): Tier {
    if ext in RAM_EXTENSIONS then
      if size >= 0 && size > c.ramMaxObjectBytes then DiskTier else RamTier
    else if size >= 0 && size <= c.smallObjectThreshold then RamTier
    else DiskTier
  }

  function ResolveTier(c: Config, tier: string, size: int): Tier {
    if tier == "disk" then (if c.diskMaxBytes <= 0 then RamTier else DiskTier)
    else if tier == "ram" then (if size >= 0 && size > c.ramMaxObjectBytes then DiskTier else RamTier)
    else PickTier(c, "", size)
  }

  function TierFor(c: Config, meta: ObjectMeta, ext: string): Tier {
    if meta.tier == "ram" || meta.tier == "disk" then ResolveTier(c, meta.tier, meta.size)
    else if ext in c.tierExtensions then ResolveTier(c, c.tierExtensions[ext], meta.size)
    else PickTier(c, ext, meta.size)
  }

  /** The cap of the RAM shard that owns a key. */
  function ShardLimit(c: Config, hash: string -> nat, key: string): int {
    var n := Shards.ShardCount(c.ramMaxBytes);
    Shards.Cap(c.ramMaxBytes, n, Shards.ShardIndex(hash(key), n))
  }

  /** What keeps an object of this size out of RAM even with no other writer about: the per-object cap and the
      budget for bodies under way, where they are enabled, and the cap of the key's shard. */
  predicate TooLarge(c: Config, hash: string -> nat, key: string, size: nat) {
    Inflight.Exceeds(Inflight.Limits(c.ramMaxObjectBytes, c.ramInflightBudget), size) || size > ShardLimit(c, hash, key)
  }

  /** An object of known size is sent to RAM, and dropped there for its size. */
  ghost predicate Drops(c: Config, hash: string -> nat, ext: string -> string, meta: ObjectMeta) {
    meta.size >= 0 && TierFor(c, meta, ext(meta.key)) == RamTier && TooLarge(c, hash, meta.key, meta.size)
  }

  function Sized(key: string, tier: string, size: int): ObjectMeta {
    ObjectMeta(key, size, "", "", "", "", "", 200, false, tier)
  }

  /** Every object sent to RAM fits it: those of the per-object cap fit the budget and the key's shard, and
      nothing above the cap is sent there. */
  ghost predicate AllFit(c: Config, hash: string -> nat) {
    && c.diskMaxBytes > 0
    && (c.smallObjectThreshold < 0 || c.smallObjectThreshold <= c.ramMaxObjectBytes)
    && (c.ramMaxObjectBytes < 0 || c.ramInflightBudget <= 0 || c.ramMaxObjectBytes <= c.ramInflightBudget)
    && (c.ramMaxObjectBytes < 0 || forall key :: c.ramMaxObjectBytes <= ShardLimit(c, hash, key))
  }

  /** What resolving the limits leaves. */
  lemma ResolvedLimits(c: Config, hash: string -> nat, key: string)
    ensures var r := Resolve(c);
            && r.ramMaxObjectBytes <= r.ramMaxBytes && (r.ramMaxObjectBytes <= 0 ==> r.ramMaxBytes == r.ramMaxObjectBytes)
            && (r.ramMaxBytes <= 0 ==> ShardLimit(r, hash, key) == r.ramMaxBytes)
  {
  }

  /** An object above the per-object cap is sent to RAM only without a disk budget, or below the small-object
      threshold. */
  lemma OversizeToRam(c: Config, meta: ObjectMeta, ext: string)
    requires meta.size > c.ramMaxObjectBytes && meta.size >= 0 && TierFor(c, meta, ext) == RamTier
    ensures c.diskMaxBytes <= 0 || meta.size <= c.smallObjectThreshold
  {
  }

  /** Resolving the limits is meant to rule drops out. It does exactly if there is a disk budget, the
      small-object threshold is not above the per-object cap, and the per-object cap is not above the budget
      for bodies under way nor any shard's cap. (`plain` is any key without an extension of its own rule.) */
  lemma NeverDroppedIff(c: Config, hash: string -> nat, ext: string -> string, plain: string)
    requires ext(plain) !in RAM_EXTENSIONS && ext(plain) !in c.tierExtensions
    ensures (forall meta :: !Drops(Resolve(c), hash, ext, meta)) <==> AllFit(Resolve(c), hash)
  {
    hide ShardLimit;
    var r := Resolve(c);
    var obj := r.ramMaxObjectBytes;
    ResolvedLimits(c, hash, plain);
    if AllFit(r, hash) {
      forall meta
        ensures !Drops(r, hash, ext, meta)
      {
        FittingNotDropped(c, hash, ext, meta);
      }
    } else if r.diskMaxBytes <= 0 {
      var big := 1 + (if obj > 0 then obj else 0) + (if ShardLimit(r, hash, plain) > 0 then ShardLimit(r, hash, plain) else 0);
      assert Drops(r, hash, ext, Sized(plain, "disk", big));
    } else if r.smallObjectThreshold >= 0 && r.smallObjectThreshold > obj {
      assert Drops(r, hash, ext, Sized(plain, "", r.smallObjectThreshold));
    } else if r.ramInflightBudget > 0 && obj > r.ramInflightBudget {
      assert Drops(r, hash, ext, Sized(plain, "ram", obj));
    } else {
      var key :| obj > ShardLimit(r, hash, key);
      assert Drops(r, hash, ext, Sized(key, "ram", obj));
    }
  }

  lemma FittingNotDropped(c: Config, hash: string -> nat, ext: string -> string, meta: ObjectMeta)
    requires AllFit(Resolve(c), hash)
    ensures !Drops(Resolve(c), hash, ext, meta)
  {
    hide ShardLimit, TierFor;
    var r := Resolve(c);
    ResolvedLimits(c, hash, meta.key);
    if meta.size >= 0 && TierFor(r, meta, ext(meta.key)) == RamTier && meta.size > r.ramMaxObjectBytes {
      OversizeToRam(r, meta, ext(meta.key));
    }
  }

  /** Over all keys the tightest shard is the last one: its cap is the budget divided by the shards. */
  lemma TightestShard(c: Config, hash: string -> nat, last: string, limit: int)
    requires var n := Shards.ShardCount(c.ramMaxBytes); Shards.ShardIndex(hash(last), n) == n - 1
    ensures (forall key :: limit <= ShardLimit(c, hash, key)) <==>
              limit <= if c.ramMaxBytes <= 0 then c.ramMaxBytes else c.ramMaxBytes / Shards.ShardCount(c.ramMaxBytes)
  {
    assert ShardLimit(c, hash, last) == if c.ramMaxBytes <= 0 then c.ramMaxBytes else c.ramMaxBytes / Shards.ShardCount(c.ramMaxBytes);
  }

  /** The limits of a site without a cache block: 2 GiB of RAM in 64 shards, a 64 MiB object cap. */
  function SiteDefaults(disk: int): Config {
    Config(0x8000_0000, disk, 0x20_0000, DEFAULT_RAM_MAX_OBJECT, 0xB_0000_0000, map[])
  }

  /** They drop: an image of more than 32 MiB and up to 64 MiB is sent to RAM, and no shard takes it. */
  lemma DefaultsDrop(disk: int, hash: string -> nat, ext: string -> string, meta: ObjectMeta)
    requires ext(meta.key) == ".jpg" && meta.tier == "" && 0x200_0000 < meta.size <= 0x400_0000
    ensures Drops(Resolve(SiteDefaults(disk)), hash, ext, meta)
  {
    assert ".jpg" in RAM_EXTENSIONS;
    assert Shards.ShardCount(0x8000_0000) == 64;
  }

  // ----- Concurrent writers of one key -----

  /** A deduplicating writer: not yet committed, about to delete the sibling copy, or finished. */
  datatype Phase = Pending | Deleting | Finished

  datatype Writer = Writer(dst: Tier, phase: Phase)

  /** The last installed commit: its tier, its object, and the writer that made it. */
  datatype Last = NoCommit | Last(tier: Tier, obj: Object, w: nat)

  /** Both tiers' copies of the key, and every writer of it so far. */
  datatype State = State(ram: Option<Object>, disk: Option<Object>, writers: seq<Writer>, last: Last)

  const START := State(None, None, [], NoCommit)

  datatype Step =
    | Open(dst: Tier)
    | Install(w: nat, obj: Object)   // the destination tier stored the object
    | Refuse(w: nat)                 // committed without storing, or failed, or aborted
    | Delete(w: nat)                 // the sibling tier drops the key
    | Evict(tier: Tier)              // a tier drops the key on its own

  function CopyIn(s: State, t: Tier): Option<Object> {
    if t == RamTier then s.ram else s.disk
  }

  function Put(s: State, t: Tier, copy: Option<Object>): State {
    if t == RamTier then s.(ram := copy) else s.(disk := copy)
  }

  /** One step; a step that is not enabled changes nothing. */
  function Next(s: State, step: Step): State {
    match step
    case Open(dst) => s.(writers := s.writers + [Writer(dst, Pending)])
    case Install(w, obj) =>
      if w < |s.writers| && s.writers[w].phase == Pending then
        var t := s.writers[w].dst;
        Put(s, t, Some(obj)).(writers := s.writers[w := Writer(t, Deleting)], last := Last(t, obj, w))
      else s
    case Refuse(w) =>
      if w < |s.writers| && s.writers[w].phase == Pending then
        s.(writers := s.writers[w := s.writers[w].(phase := Finished)])
      else s
    case Delete(w) =>
      if w < |s.writers| && s.writers[w].phase == Deleting then
        var t := s.writers[w].dst;
        Put(s, Sibling(t), None).(writers := s.writers[w := Writer(t, Finished)])
      else s
    case Evict(t) => Put(s, t, None)
  }

  function Run(steps: seq<Step>): State {
    if steps == [] then START else Next(Run(steps[..|steps| - 1]), steps[|steps| - 1])
  }

  /** The copy in the last commit's tier is that commit's object; while a copy is left in the other
      tier, the last committer still owes its deletion. */
  ghost predicate Inv(s: State) {
    match s.last
    case NoCommit => s.ram == None && s.disk == None && forall w :: 0 <= w < |s.writers| ==> s.writers[w].phase != Deleting
    case Last(t, obj, w) =>
      && w < |s.writers| && s.writers[w].dst == t
      && (CopyIn(s, t) == None || CopyIn(s, t) == Some(obj))
      && (CopyIn(s, Sibling(t)) != None ==> s.writers[w].phase == Deleting)
  }

  lemma NextKeepsInv(s: State, step: Step)
    requires Inv(s)
    ensures Inv(Next(s, step))
  {
  }

  lemma {:induction false} RunKeepsInv(steps: seq<Step>)
    ensures Inv(Run(steps))
  {
    if steps != [] {
      RunKeepsInv(steps[..|steps| - 1]);
      NextKeepsInv(Run(steps[..|steps| - 1]), steps[|steps| - 1]);
    }
  }

  /** A lookup: RAM first, then disk. */
  function Lookup(s: State): Option<Object> {
    if s.ram != None then s.ram else s.disk
  }

  /** Once no deletion is owed, the key is in at most one tier, and a lookup returns the object of the
      last installed commit or misses. */
  lemma QuiescentKey(steps: seq<Step>)
    requires forall w :: 0 <= w < |Run(steps).writers| ==> Run(steps).writers[w].phase != Deleting
    ensures var s := Run(steps);
            && (s.ram == None || s.disk == None)
            && (Lookup(s) == None || (s.last.Last? && Lookup(s) == Some(s.last.obj)))
  {
    RunKeepsInv(steps);
  }

  /** The two reads of a lookup, with other steps in between: RAM as it is first, then disk as it is later. */
  function Reads(first: State, later: State): Option<Object> {
    if first.ram != None then first.ram else later.disk
  }

  /** Whatever happens between the reads, a hit is the last object installed at the moment of the read
      that found it, unless its committer still owes the deletion in the other tier. */
  lemma StaleOnlyBeforeDelete(before: seq<Step>, between: seq<Step>)
    requires Reads(Run(before), Run(before + between)) != None
    ensures var hit := Reads(Run(before), Run(before + between));
            var s := if Run(before).ram != None then Run(before) else Run(before + between);
            && s.last.Last? && s.last.w < |s.writers|
            && (hit == Some(s.last.obj) || s.writers[s.last.w].phase == Deleting)
  {
    RunKeepsInv(before);
    RunKeepsInv(before + between);
  }

  ghost predicate FillsRam(s: State, step: Step) {
    step.Install? && step.w < |s.writers| && s.writers[step.w] == Writer(RamTier, Pending)
  }

  ghost predicate EmptiesRam(s: State, step: Step) {
    step == Evict(RamTier) || (step.Delete? && step.w < |s.writers| && s.writers[step.w] == Writer(DiskTier, Deleting))
  }

  /** The step at `n` fills RAM, and none after it empties RAM again. */
  ghost predicate FilledAt(before: seq<Step>, between: seq<Step>, n: nat) {
    && n < |between| && FillsRam(Run(before + between[..n]), between[n])
    && forall m :: n < m < |between| ==> !EmptiesRam(Run(before + between[..m]), between[m])
  }

  ghost predicate Filled(before: seq<Step>, between: seq<Step>) {
    exists n :: 0 <= n && FilledAt(before, between, n)
  }

  lemma FillsOrEmpties(s: State, step: Step)
    ensures Next(s, step).ram != None <==> FillsRam(s, step) || (s.ram != None && !EmptiesRam(s, step))
  {
  }

  lemma FilledMore(before: seq<Step>, between: seq<Step>, step: Step)
    ensures var s := Run(before + between);
            Filled(before, between + [step]) <==> FillsRam(s, step) || (Filled(before, between) && !EmptiesRam(s, step))
  {
    hide Run, FillsRam, EmptiesRam;
    var all, k := between + [step], |between|;
    assert all[..k] == between && all[k] == step;
    assert forall m :: 0 <= m <= k ==> all[..m] == between[..m];
    if Filled(before, all) {
      var n :| 0 <= n && FilledAt(before, all, n);
      if n < k {
        forall m | n < m < k
          ensures !EmptiesRam(Run(before + between[..m]), between[m])
        {
          assert all[m] == between[m] && all[..m] == between[..m];
        }
        assert FilledAt(before, between, n);
      }
    }
    if FillsRam(Run(before + between), step) {
      assert FilledAt(before, all, k);
    }
    if Filled(before, between) && !EmptiesRam(Run(before + between), step) {
      var n :| 0 <= n && FilledAt(before, between, n);
      forall m | n < m < |all|
        ensures !EmptiesRam(Run(before + all[..m]), all[m])
      {
        assert m < k ==> all[m] == between[m] && all[..m] == between[..m];
      }
      assert FilledAt(before, all, n);
    }
  }

  lemma {:induction false} FilledIff(before: seq<Step>, between: seq<Step>)
    requires Run(before).ram == None
    ensures Run(before + between).ram != None <==> Filled(before, between)
    decreases |between|
  {
    hide Run, FillsRam, EmptiesRam, Next;
    if between == [] {
      assert before + between == before;
    } else {
      var k := |between| - 1;
      var rest, step := between[..k], between[k];
      FilledIff(before, rest);
      assert rest + [step] == between && before + rest + [step] == before + between;
      RunMore(before + rest, step);
      FillsOrEmpties(Run(before + rest), step);
      FilledMore(before, rest, step);
    }
  }

  /** A lookup that misses is wrong, at its second read, exactly if a writer filled RAM in between and RAM was
      not emptied again. */
  lemma MissIsMoving(before: seq<Step>, between: seq<Step>)
    requires Reads(Run(before), Run(before + between)) == None
    ensures Lookup(Run(before + between)) != None <==> Filled(before, between)
  {
    hide Run;
    FilledIff(before, between);
  }

  lemma RunMore(steps: seq<Step>, step: Step)
    ensures Run(steps + [step]) == Next(Run(steps), step)
  {
    assert (steps + [step])[..|steps|] == steps;
  }

  lemma OneOnDisk(a: Object)
    ensures Run([Open(DiskTier), Open(RamTier), Install(0, a), Delete(0)]) ==
              State(None, Some(a), [Writer(DiskTier, Finished), Writer(RamTier, Pending)], Last(DiskTier, a, 0))
  {
    hide Run;
    var two := [Open(DiskTier)] + [Open(RamTier)];
    RunNone();
    RunMore([], Open(DiskTier));
    assert [] + [Open(DiskTier)] == [Open(DiskTier)];
    RunMore([Open(DiskTier)], Open(RamTier));
    RunMore(two, Install(0, a));
    RunMore(two + [Install(0, a)], Delete(0));
    assert two + [Install(0, a)] + [Delete(0)] == [Open(DiskTier), Open(RamTier), Install(0, a), Delete(0)];
  }

  lemma RunNone()
    ensures Run([]) == START
  {
  }

  /** Such a miss does happen: a key moving from disk to RAM is cached at every moment, and missed. */
  lemma MovingKeyMissed(a: Object, b: Object)
    ensures var before := [Open(DiskTier), Open(RamTier), Install(0, a), Delete(0)];
            var between := [Install(1, b), Delete(1)];
            && Reads(Run(before), Run(before + between)) == None
            && Lookup(Run(before)) == Some(a)
            && Lookup(Run(before + between[..1])) == Some(b) == Lookup(Run(before + between))
  {
    hide Run;
    var before := [Open(DiskTier), Open(RamTier), Install(0, a), Delete(0)];
    OneOnDisk(a);
    RunMore(before, Install(1, b));
    RunMore(before + [Install(1, b)], Delete(1));
    assert [Install(1, b), Delete(1)][..1] == [Install(1, b)];
    assert before + [Install(1, b), Delete(1)] == before + [Install(1, b)] + [Delete(1)];
  }
}
