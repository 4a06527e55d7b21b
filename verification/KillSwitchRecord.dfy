/**
 * The kill switch's record on disk: migration from the single-tunnel schema, removal of tunnels whose
 * interface is gone, and a write that a crash cannot tear.
 */
module KillSwitchRecord {
  import opened Wrappers
  import opened Bytes

  const SCHEMA_V2: nat := 2

  datatype Mode = Off | Auto | AlwaysOn

  datatype SwitchState = Disabled | Armed | Blocking

  datatype Tunnel = Tunnel(interface: string, serverIps: seq<string>, declaredCidrs: seq<string>, isPrimary: bool)

  datatype Persisted = Persisted(
    schemaVersion: nat, mode: Mode, state: SwitchState, vpnInterface: Option<string>, vpnServerIp: Option<string>,
    activeTunnels: seq<Tunnel>)

  // ---------------------------------------------------------------------- what a record lets through

  /** Traffic the blocked firewall still lets through: out of an interface, to a tunnel's servers. */
  datatype Access = Access(interface: string, serverIps: seq<string>)

  function AccessOf(tunnels: seq<Tunnel>): seq<Access> {
    seq(|tunnels|, i requires 0 <= i < |tunnels| => Access(tunnels[i].interface, tunnels[i].serverIps))
  }

  /**
   * What a record says, read off its raw fields. The tunnel list speaks where there is one; a record of an
   * older or unknown schema without a list names its one tunnel in the two single-tunnel fields.
   */
  function Meaning(p: Persisted): seq<Access> {
    if p.schemaVersion != 2 && |p.activeTunnels| == 0 then
      match p.vpnInterface
      case None => []
      case Some(interface) =>
        match p.vpnServerIp
        case None => [Access(interface, [])]
        case Some(ip) => [Access(interface, [ip])]
    else AccessOf(p.activeTunnels)
  }

  /** The part of it whose interface still exists; an empty list of interfaces says nothing. */
  function StillThere(accesses: seq<Access>, live: seq<string>): seq<Access> {
    if live == [] || accesses == [] then accesses
    else
      var rest := StillThere(accesses[..|accesses| - 1], live);
      if accesses[|accesses| - 1].interface in live then rest + [accesses[|accesses| - 1]] else rest
  }

  // ---------------------------------------------------------------------- migration and filtering

  function CoerceV1ToV2(p: Persisted): Persisted {
    var tunnels :=
      if p.activeTunnels == [] && p.vpnInterface.Some? then
        [Tunnel(p.vpnInterface.value, if p.vpnServerIp.Some? then [p.vpnServerIp.value] else [], [], true)]
      else p.activeTunnels;
    p.(activeTunnels := tunnels, schemaVersion := SCHEMA_V2)
  }

  function LiveOnly(tunnels: seq<Tunnel>, live: seq<string>): seq<Tunnel> {
    if tunnels == [] then []
    else
      var init := LiveOnly(tunnels[..|tunnels| - 1], live);
      var last := tunnels[|tunnels| - 1];
      if last.interface in live then init + [last] else init
  }

  /** No interface list means it is unknown, not that every interface is gone. */
  function FilterPhantoms(p: Persisted, live: seq<string>): Persisted {
    if live == [] then p else p.(activeTunnels := LiveOnly(p.activeTunnels, live))
  }

  function Upgraded(p: Persisted): Persisted {
    if p.schemaVersion == SCHEMA_V2 then p else CoerceV1ToV2(p)
  }

  /** What a load makes of the parsed record. */
  function Loaded(p: Persisted, live: seq<string>): Persisted {
    FilterPhantoms(Upgraded(p), live)
  }

  /** The record a save writes. */
  function Saved(mode: Mode, state: SwitchState, tunnels: seq<Tunnel>): Persisted {
    Persisted(SCHEMA_V2, mode, state, None, None, tunnels)
  }

  /** The record as the loader edits it, field by field. */
  class Record {
    var schemaVersion: nat
    var mode: Mode
    var state: SwitchState
    var vpnInterface: Option<string>
    var vpnServerIp: Option<string>
    var activeTunnels: seq<Tunnel>

    ghost function Contents(): Persisted
      reads this
    {
      Persisted(schemaVersion, mode, state, vpnInterface, vpnServerIp, activeTunnels)
    }

    constructor (p: Persisted)
      ensures Contents() == p
    {
      schemaVersion, mode, state := p.schemaVersion, p.mode, p.state;
      vpnInterface, vpnServerIp, activeTunnels := p.vpnInterface, p.vpnServerIp, p.activeTunnels;
    }

    method Coerce()
      modifies `activeTunnels, `schemaVersion
      ensures Contents() == CoerceV1ToV2(old(Contents()))
      ensures old(schemaVersion) != 2 ==> AccessOf(activeTunnels) == Meaning(old(Contents()))
    {
      MigratedTunnel(Contents());
      if activeTunnels == [] && vpnInterface.Some? {
        var serverIps := if vpnServerIp.Some? then [vpnServerIp.value] else [];
        activeTunnels := [Tunnel(vpnInterface.value, serverIps, [], true)];
      }
      schemaVersion := SCHEMA_V2;
    }

    method DropPhantoms(live: seq<string>)
      modifies `activeTunnels
      ensures Contents() == FilterPhantoms(old(Contents()), live)
    {
      if live == [] {
        return;
      }
      var kept: seq<Tunnel> := [];
      for i := 0 to |activeTunnels|
        invariant kept == LiveOnly(activeTunnels[..i], live)
      {
        if activeTunnels[i].interface in live {
          kept := kept + [activeTunnels[i]];
        }
        assert activeTunnels[..i + 1][..i] == activeTunnels[..i];
      }
      assert activeTunnels[..|activeTunnels|] == activeTunnels;
      activeTunnels := kept;
    }

    /** The loaded record lets through what the raw one said, where the interface still exists. */
    method FinishLoad(live: seq<string>)
      modifies this
      ensures Contents() == Loaded(old(Contents()), live)
      ensures AccessOf(activeTunnels) == StillThere(Meaning(old(Contents())), live)
      ensures mode == old(mode) && state == old(state)
    {
      LoadKeepsMeaning(Contents(), live);
      if schemaVersion != SCHEMA_V2 {
        Coerce();
      }
      DropPhantoms(live);
    }
  }

  /** `a` is `b` with some elements left out, the rest in their order. */
  predicate IsSublist(a: seq<Tunnel>, b: seq<Tunnel>) {
    if a == [] then true
    else if b == [] then false
    else if a[|a| - 1] == b[|b| - 1] then IsSublist(a[..|a| - 1], b[..|b| - 1])
    else IsSublist(a, b[..|b| - 1])
  }

  /** The filter leaves a sublist: every live tunnel as often as before, and no other. */
  lemma {:induction false} LiveOnlyIsTheLiveSublist(tunnels: seq<Tunnel>, live: seq<string>)
    ensures IsSublist(LiveOnly(tunnels, live), tunnels)
    ensures forall t :: multiset(LiveOnly(tunnels, live))[t] == if t.interface in live then multiset(tunnels)[t] else 0
  {
    if tunnels != [] {
      var init, last := tunnels[..|tunnels| - 1], tunnels[|tunnels| - 1];
      LiveOnlyIsTheLiveSublist(init, live);
      assert tunnels == init + [last];
      var kept := LiveOnly(init, live);
      if last.interface in live {
        assert (kept + [last])[..|kept|] == kept;
      } else if kept != [] {
        assert kept[|kept| - 1] in multiset(kept);
      }
    }
  }

  lemma {:induction false} LiveOnlyIdempotent(tunnels: seq<Tunnel>, live: seq<string>)
    ensures LiveOnly(LiveOnly(tunnels, live), live) == LiveOnly(tunnels, live)
  {
    if tunnels != [] {
      var init, last := tunnels[..|tunnels| - 1], tunnels[|tunnels| - 1];
      LiveOnlyIdempotent(init, live);
      var kept := LiveOnly(init, live);
      if last.interface in live {
        assert (kept + [last])[..|kept|] == kept;
      }
    }
  }

  /**
   * Migration keeps what the record said and brings it to the new schema; a tunnel it makes up from the
   * single-tunnel fields is the primary one and declares no blocks.
   */
  lemma MigratedTunnel(p: Persisted)
    ensures p.schemaVersion != 2 ==> AccessOf(CoerceV1ToV2(p).activeTunnels) == Meaning(p)
    ensures var q := CoerceV1ToV2(p);
            && q.schemaVersion == 2 && q.mode == p.mode && q.state == p.state
            && (|p.activeTunnels| > 0 ==> q.activeTunnels == p.activeTunnels)
            && (|p.activeTunnels| == 0 ==> forall t :: t in q.activeTunnels ==> t.isPrimary && t.declaredCidrs == [])
  {
    var q := CoerceV1ToV2(p);
    if p.schemaVersion != 2 && |p.activeTunnels| == 0 {
      assert |AccessOf(q.activeTunnels)| == |Meaning(p)|;
      assert forall i :: 0 <= i < |Meaning(p)| ==> AccessOf(q.activeTunnels)[i] == Meaning(p)[i];
    }
  }

  lemma {:induction false} FilterKeepsMeaning(tunnels: seq<Tunnel>, live: seq<string>)
    requires live != []
    ensures AccessOf(LiveOnly(tunnels, live)) == StillThere(AccessOf(tunnels), live)
  {
    if tunnels != [] {
      var init, last := tunnels[..|tunnels| - 1], tunnels[|tunnels| - 1];
      FilterKeepsMeaning(init, live);
      assert AccessOf(tunnels)[..|tunnels| - 1] == AccessOf(init);
      assert AccessOf(tunnels)[|tunnels| - 1] == Access(last.interface, last.serverIps);
      assert AccessOf(LiveOnly(init, live) + [last]) == AccessOf(LiveOnly(init, live)) + [Access(last.interface, last.serverIps)];
    }
  }

  /** Loading any record, old, new or of an unknown schema, lets through exactly what it said of interfaces that exist. */
  lemma LoadKeepsMeaning(p: Persisted, live: seq<string>)
    ensures AccessOf(Loaded(p, live).activeTunnels) == StillThere(Meaning(p), live)
    ensures Loaded(p, live).mode == p.mode && Loaded(p, live).state == p.state
  {
    MigratedTunnel(p);
    if live != [] {
      FilterKeepsMeaning(Upgraded(p).activeTunnels, live);
    }
  }

  /** Migrating twice is migrating once, and a migrated record is left alone by the loader's upgrade. */
  lemma MigrationIsIdempotent(p: Persisted)
    ensures CoerceV1ToV2(CoerceV1ToV2(p)) == CoerceV1ToV2(p)
    ensures Upgraded(CoerceV1ToV2(p)) == CoerceV1ToV2(p)
  {
  }

  /**
   * Loading any record, saving what was loaded and loading again under the same interfaces gives the
   * same tunnels, mode and state: an old record means what the new record it becomes means.
   */
  lemma MigrationKeepsMeaning(p: Persisted, live: seq<string>)
    ensures var first := Loaded(p, live);
            var again := Loaded(Saved(first.mode, first.state, first.activeTunnels), live);
            && again.activeTunnels == first.activeTunnels && again.mode == first.mode == p.mode
            && again.state == first.state == p.state && first.schemaVersion == SCHEMA_V2
    ensures AccessOf(Loaded(p, live).activeTunnels) == StillThere(Meaning(p), live)
  {
    LoadKeepsMeaning(p, live);
    LiveOnlyIdempotent(Upgraded(p).activeTunnels, live);
  }

  // ---------------------------------------------------------------------- the write

  datatype Path = Path(dir: string, name: string)

  const STATE_FILE := "killswitch.state"

  /** `with_extension("json.tmp")`: the last extension replaced. */
  const TEMP_FILE := "killswitch.json.tmp"

  /** A file's contents, and whether they are known to have reached the disk. */
  datatype File = File(content: seq<Byte>, durable: bool)

  type Disk = map<Path, File>

  function ContentOf(disk: map<Path, seq<Byte>>, path: Path): Option<seq<Byte>> {
    if path in disk then Some(disk[path]) else None
  }

  /** After a crash a file that had reached the disk is intact; any other may hold anything. */
  ghost predicate CrashImage(disk: Disk, image: map<Path, seq<Byte>>) {
    image.Keys == disk.Keys && forall p :: p in disk && disk[p].durable ==> image[p] == disk[p].content
  }

  /** Whatever the crash leaves at `path`, it is the old file (or its absence) or the new one, whole. */
  ghost predicate OldOrNew(disk: Disk, path: Path, old_: Option<seq<Byte>>, new_: seq<Byte>) {
    forall image :: CrashImage(disk, image) ==> ContentOf(image, path) == old_ || ContentOf(image, path) == Some(new_)
  }

  class Store {
    var disk: Disk

    constructor (files: Disk)
      ensures disk == files
    {
      disk := files;
    }

    /**
     * Write the temporary file byte by byte, flush it, rename it over the target. `points` are the
     * disks a crash, or a failing step, can leave behind. The outcome of the flush is ignored.
     */
    method AtomicWrite(dir: string, contents: seq<Byte>, flushed: bool) returns (ghost points: seq<Disk>)
      modifies this
      ensures |points| >= 2 && points[0] == old(disk) && points[|points| - 1] == disk
      ensures forall i :: 0 <= i < |points| - 1 ==> OnlyTempDiffers(points[i], old(disk), Path(dir, TEMP_FILE))
      ensures disk == (old(disk) - {Path(dir, TEMP_FILE)})[Path(dir, STATE_FILE) := File(contents, flushed)]
    {
      var temp, target := Path(dir, TEMP_FILE), Path(dir, STATE_FILE);
      assert TEMP_FILE[11] != STATE_FILE[11];
      points := [disk];
      disk := disk[temp := File([], false)];
      points := points + [disk];
      var i := 0;
      while i < |contents|
        invariant 0 <= i <= |contents|
        invariant disk == old(disk)[temp := File(contents[..i], false)]
        invariant |points| >= 2 && points[0] == old(disk)
        invariant forall j :: 0 <= j < |points| ==> OnlyTempDiffers(points[j], old(disk), temp)
      {
        disk := disk[temp := File(disk[temp].content + [contents[i]], false)];
        i := i + 1;
        assert contents[..i] == contents[..i - 1] + [contents[i - 1]];
        assert disk == old(disk)[temp := File(contents[..i], false)];
        points := points + [disk];
      }
      assert contents[..i] == contents;
      if flushed {
        disk := disk[temp := File(contents, true)];
        points := points + [disk];
      }
      var file := disk[temp];
      disk := (disk - {temp})[target := file];
      points := points + [disk];
    }
  }

  /** The two disks agree on every file but `temp`. */
  ghost predicate OnlyTempDiffers(a: Disk, b: Disk, temp: Path) {
    forall p :: p != temp ==> (p in a <==> p in b) && (p in a ==> a[p] == b[p])
  }

  function OldContent(disk: Disk, path: Path): Option<seq<Byte>> {
    if path in disk then Some(disk[path].content) else None
  }

  lemma BeforeRename(disk: Disk, before: Disk, dir: string, contents: seq<Byte>)
    requires OnlyTempDiffers(disk, before, Path(dir, TEMP_FILE))
    requires Path(dir, STATE_FILE) in before ==> before[Path(dir, STATE_FILE)].durable
    ensures OldOrNew(disk, Path(dir, STATE_FILE), OldContent(before, Path(dir, STATE_FILE)), contents)
  {
    assert TEMP_FILE[11] != STATE_FILE[11];
    assert Path(dir, STATE_FILE) != Path(dir, TEMP_FILE);
  }

  /** A third content, neither the old nor the new, that an unflushed rename can expose. */
  lemma TornImage(disk: Disk, path: Path, old_: Option<seq<Byte>>, new_: seq<Byte>) returns (image: map<Path, seq<Byte>>)
    requires path in disk && !disk[path].durable
    ensures CrashImage(disk, image) && ContentOf(image, path) != old_ && ContentOf(image, path) != Some(new_)
  {
    var n := |new_| + (if old_.Some? then |old_.value| else 0) + 1;
    var torn: seq<Byte> := seq(n, _ => 0);
    image := map p | p in disk :: if p == path then torn else disk[p].content;
  }

  /**
   * One save, crashed at any point: a later load finds the old record or the new one whole. The
   * ignored flush decides: this holds at every point exactly when the flush succeeded.
   */
  method SaveRecord(store: Store, dir: string, contents: seq<Byte>, flushed: bool) returns (ghost points: seq<Disk>)
    requires Path(dir, STATE_FILE) in store.disk ==> store.disk[Path(dir, STATE_FILE)].durable
    modifies store
    ensures points != [] && points[|points| - 1] == store.disk
    ensures OldContent(store.disk, Path(dir, STATE_FILE)) == Some(contents)
    ensures var target := Path(dir, STATE_FILE);
            var before := old(OldContent(store.disk, target));
            (forall i :: 0 <= i < |points| ==> OldOrNew(points[i], target, before, contents)) <==> flushed
  {
    ghost var first := store.disk;
    ghost var target := Path(dir, STATE_FILE);
    ghost var before := OldContent(first, target);
    points := store.AtomicWrite(dir, contents, flushed);
    forall i | 0 <= i < |points| - 1 ensures OldOrNew(points[i], target, before, contents) {
      BeforeRename(points[i], first, dir, contents);
    }
    ghost var last := points[|points| - 1];
    if !flushed {
      ghost var image := TornImage(last, target, before, contents);
      assert !OldOrNew(last, target, before, contents);
    }
  }

  /** What a load returns, given the parser, is decided by the bytes at the target alone. */
  function Load(content: Option<seq<Byte>>, parse: seq<Byte> -> Option<Persisted>, live: seq<string>): Option<Persisted> {
    if content.None? then None
    else
      match parse(content.value)
      case None => None
      case Some(p) => Some(Loaded(p, live))
  }

  /** A crash-safe disk loads to what the old file or the new file loads to. */
  lemma CrashSafeLoad(disk: Disk, path: Path, old_: Option<seq<Byte>>, new_: seq<Byte>, image: map<Path, seq<Byte>>,
                      parse: seq<Byte> -> Option<Persisted>, live: seq<string>)
    requires OldOrNew(disk, path, old_, new_) && CrashImage(disk, image)
    ensures Load(ContentOf(image, path), parse, live) == Load(old_, parse, live)
         || Load(ContentOf(image, path), parse, live) == Load(Some(new_), parse, live)
  {
    assert ContentOf(image, path) == old_ || ContentOf(image, path) == Some(new_);
  }

  /** Whatever a crash leaves, a load gives `before` or the record `p`. */
  ghost predicate LoadsOneOf(disk: Disk, path: Path, parse: seq<Byte> -> Option<Persisted>, live: seq<string>,
                             before: Option<Persisted>, p: Persisted) {
    forall image :: CrashImage(disk, image) ==>
      var after := Load(ContentOf(image, path), parse, live);
      after == before || after == Some(FilterPhantoms(p, live))
  }

  /**
   * Save, crash anywhere, load. Where the flush succeeded, the load after a crash at any point of the
   * save gives what it gave before the save, or the saved record whole, with the tunnels whose interface
   * is gone left out: never a mixture, never nothing in place of something.
   */
  method SaveState(store: Store, dir: string, mode: Mode, state: SwitchState, tunnels: seq<Tunnel>, flushed: bool,
                   encode: Persisted -> seq<Byte>, ghost parse: seq<Byte> -> Option<Persisted>, ghost live: seq<string>)
    returns (ghost points: seq<Disk>)
    requires Path(dir, STATE_FILE) in store.disk ==> store.disk[Path(dir, STATE_FILE)].durable
    requires parse(encode(Saved(mode, state, tunnels))) == Some(Saved(mode, state, tunnels))
    modifies store
    ensures points != [] && points[|points| - 1] == store.disk
    ensures var target := Path(dir, STATE_FILE);
            var before := Load(old(OldContent(store.disk, target)), parse, live);
            flushed ==>
              forall i :: 0 <= i < |points| ==> LoadsOneOf(points[i], target, parse, live, before, Saved(mode, state, tunnels))
    ensures var after := Load(OldContent(store.disk, Path(dir, STATE_FILE)), parse, live);
            after == Some(FilterPhantoms(Saved(mode, state, tunnels), live))
  {
    var p := Saved(mode, state, tunnels);
    ghost var target := Path(dir, STATE_FILE);
    ghost var before := OldContent(store.disk, target);
    points := SaveRecord(store, dir, encode(p), flushed);
    if flushed {
      forall i | 0 <= i < |points| ensures LoadsOneOf(points[i], target, parse, live, Load(before, parse, live), p) {
        forall image | CrashImage(points[i], image)
          ensures var after := Load(ContentOf(image, target), parse, live);
                  after == Load(before, parse, live) || after == Some(FilterPhantoms(p, live))
        {
          CrashSafeLoad(points[i], target, before, encode(p), image, parse, live);
        }
      }
    }
  }
}
