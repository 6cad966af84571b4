/**
 Installing a bundle: copy, check, unpack into a staging directory, publish it with one rename.
 File names are compared as the file system folds them; hashing, unpacking and JSON are given.
 */
module Install {
  import opened Bundle
  import opened Sets
  import opened Wrappers

  type Bytes = seq<nat>

  /** The content of a directory by folded file name. */
  type Dir = map<string, Bytes>

  /** An archive entry: `None` for a name that is not UTF-8 and for data that cannot be unpacked. */
  datatype Entry = Entry(name: Option<string>, plain: bool, content: Option<Bytes>)

  datatype System = System(
    fold: string -> string,
    hash: Bytes -> string,
    unzip: Bytes -> Option<seq<Entry>>,
    parse: Bytes -> Option<Manifest>,
    format: Manifest -> Bytes)
  {
    function Read(dir: Dir, name: string): Option<Bytes> {
      if fold(name) in dir then Some(dir[fold(name)]) else None
    }

    /** A file with this content hash. */
    predicate Has(dir: Dir, name: string, expected: string) {
      Read(dir, name).Some? && hash(Read(dir, name).value) == expected
    }

    function ReadManifest(dir: Dir): Option<Manifest> {
      match Read(dir, MANIFEST_NAME)
      case None => None
      case Some(bytes) =>
        match parse(bytes)
        case None => None
        case Some(m) => if Valid(m) then Some(m) else None
    }
  }

  /** JSON is read back as written, and no other name than the reserved ones folds to them. */
  ghost predicate Sane(s: System) {
    && (forall m :: s.parse(s.format(m)) == Some(m))
    && (forall name :: s.fold(name) == s.fold(BRIDGE_EXE_NAME) ==> SameIgnoringCase(name, BRIDGE_EXE_NAME))
    && (forall name :: s.fold(name) == s.fold(MANIFEST_NAME) ==> SameIgnoringCase(name, MANIFEST_NAME))
  }

  predicate Installed(s: System, dir: Dir, m: Manifest) {
    && s.ReadManifest(dir) == Some(m)
    && s.Has(dir, BRIDGE_EXE_NAME, m.bridgeHash)
    && forall name :: name in m.files ==> s.Has(dir, name, m.files[name])
  }

  /** A complete installation has its manifest, the bridge and the driver, each as listed. */
  lemma InstallationHasItsPrograms(s: System, dir: Dir, m: Manifest)
    requires Installed(s, dir, m)
    ensures s.Has(dir, "rdpilot-bridge.exe", m.bridgeHash) && s.Read(dir, "manifest.json").Some?
    ensures "cua-driver.exe" in m.files && forall name :: name in m.files ==> s.Has(dir, name, m.files[name])
  {
  }

  // --- Unpacking ---

  /** One entry; `None` when it is refused. */
  function Unpack(s: System, dir: Dir, entry: Entry, files: map<string, string>): Option<Dir> {
    if entry.name.None? || !EntryNameOk(entry.name.value) then None
    else
      var name := entry.name.value;
      if name !in files || !entry.plain || s.fold(name) in dir || entry.content.None? then None
      else if s.hash(entry.content.value) != files[name] then None
      else Some(dir[s.fold(name) := entry.content.value])
  }

  function UnpackAll(s: System, dir: Dir, entries: seq<Entry>, files: map<string, string>): Option<Dir> {
    if entries == [] then Some(dir)
    else
      match UnpackAll(s, dir, entries[..|entries| - 1], files)
      case None => None
      case Some(unpacked) => Unpack(s, unpacked, entries[|entries| - 1], files)
  }

  function Extracted(s: System, dir: Dir, archive: Bytes, files: map<string, string>): Option<Dir> {
    match s.unzip(archive)
    case None => None
    case Some(entries) =>
      match UnpackAll(s, dir, entries, files)
      case None => None
      case Some(unpacked) => if |entries| == |files| then Some(unpacked) else None
  }

  /** `done` is exactly what has been unpacked: distinct listed names, each with its hash, nothing overwritten. */
  ghost predicate Unpacked(s: System, before: Dir, after: Dir, done: set<string>, files: map<string, string>) {
    && done <= files.Keys
    && after.Keys == before.Keys + (set name | name in done :: s.fold(name))
    && (forall key :: key in before ==> after[key] == before[key])
    && (forall name :: name in done ==> s.Has(after, name, files[name]) && s.fold(name) !in before)
  }

  lemma UnpackOne(s: System, before: Dir, dir: Dir, entry: Entry, done: set<string>, files: map<string, string>)
    requires Unpacked(s, before, dir, done, files) && Unpack(s, dir, entry, files).Some?
    ensures entry.name.value !in done
    ensures Unpacked(s, before, Unpack(s, dir, entry, files).value, done + {entry.name.value}, files)
  {
    var name := entry.name.value;
    assert name in done ==> s.fold(name) in dir;
    var after := Unpack(s, dir, entry, files).value;
    assert after.Keys == before.Keys + (set n | n in done + {name} :: s.fold(n));
  }

  lemma {:induction false} UnpackAllIsExact(s: System, before: Dir, entries: seq<Entry>, files: map<string, string>)
    returns (done: set<string>)
    requires UnpackAll(s, before, entries, files).Some?
    ensures Unpacked(s, before, UnpackAll(s, before, entries, files).value, done, files) && |done| == |entries|
  {
    if entries == [] {
      done := {};
    } else {
      var init, last := entries[..|entries| - 1], entries[|entries| - 1];
      done := UnpackAllIsExact(s, before, init, files);
      UnpackOne(s, before, UnpackAll(s, before, init, files).value, last, done, files);
      done := done + {last.name.value};
    }
  }

  /**
   Counting entries is enough: because no name can be created twice, as many entries as listed names
   means that exactly the listed names were created, each with its listed content.
   */
  lemma ExtractionIsExact(s: System, before: Dir, archive: Bytes, files: map<string, string>)
    requires Extracted(s, before, archive, files).Some?
    ensures Unpacked(s, before, Extracted(s, before, archive, files).value, files.Keys, files)
  {
    var done := UnpackAllIsExact(s, before, s.unzip(archive).value, files);
    assert |files.Keys| == |files|;
    FullSubset(done, files.Keys);
  }

  /** An entry that may be unpacked: a plain file with a listed, legal name and the listed content. */
  predicate Listed(s: System, entry: Entry, files: map<string, string>) {
    && entry.name.Some? && EntryNameOk(entry.name.value) && entry.name.value in files && entry.plain
    && entry.content.Some? && s.hash(entry.content.value) == files[entry.name.value]
  }

  /** Every entry may be unpacked, and no two of them or of the files before are stored under one name. */
  ghost predicate NoneCollides(s: System, before: Dir, entries: seq<Entry>, files: map<string, string>) {
    && (forall i :: 0 <= i < |entries| ==>
          Listed(s, entries[i], files) && s.fold(entries[i].name.value) !in before)
    && (forall i, j :: 0 <= i < j < |entries| ==> s.fold(entries[i].name.value) != s.fold(entries[j].name.value))
  }

  /** The names that the named entries are stored under. */
  function StoredNames(s: System, entries: seq<Entry>): set<string> {
    set i | 0 <= i < |entries| && entries[i].name.Some? :: s.fold(entries[i].name.value)
  }

  lemma StoredNext(s: System, init: seq<Entry>, last: Entry)
    requires last.name.Some?
    ensures StoredNames(s, init + [last]) == StoredNames(s, init) + {s.fold(last.name.value)}
  {
    var all := init + [last];
    assert all[|init|] == last && forall i :: 0 <= i < |init| ==> all[i] == init[i];
    forall key | key in StoredNames(s, init) ensures key in StoredNames(s, all) {
      var i :| 0 <= i < |init| && init[i].name.Some? && s.fold(init[i].name.value) == key;
      assert all[i].name.Some?;
    }
  }

  lemma NoneCollidesNext(s: System, before: Dir, init: seq<Entry>, last: Entry, files: map<string, string>)
    ensures NoneCollides(s, before, init + [last], files) <==>
            && NoneCollides(s, before, init, files) && Listed(s, last, files)
            && s.fold(last.name.value) !in before && s.fold(last.name.value) !in StoredNames(s, init)
  {
    var all := init + [last];
    assert all[|init|] == last && forall i :: 0 <= i < |init| ==> all[i] == init[i];
  }

  lemma {:induction false} UnpacksExactly(s: System, before: Dir, entries: seq<Entry>, files: map<string, string>)
    ensures UnpackAll(s, before, entries, files).Some? <==> NoneCollides(s, before, entries, files)
    ensures NoneCollides(s, before, entries, files) ==>
              UnpackAll(s, before, entries, files).value.Keys == before.Keys + StoredNames(s, entries)
  {
    if entries != [] {
      var init, last := entries[..|entries| - 1], entries[|entries| - 1];
      assert entries == init + [last];
      UnpacksExactly(s, before, init, files);
      NoneCollidesNext(s, before, init, last, files);
      if NoneCollides(s, before, init, files) {
        UnpackNames(s, before, UnpackAll(s, before, init, files).value, init, last, files);
      }
    }
  }

  lemma UnpackNames(s: System, before: Dir, dir: Dir, init: seq<Entry>, last: Entry, files: map<string, string>)
    requires dir.Keys == before.Keys + StoredNames(s, init)
    ensures Unpack(s, dir, last, files).Some? <==>
            && Listed(s, last, files)
            && s.fold(last.name.value) !in before && s.fold(last.name.value) !in StoredNames(s, init)
    ensures Unpack(s, dir, last, files).Some? ==>
              Unpack(s, dir, last, files).value.Keys == before.Keys + StoredNames(s, init + [last])
  {
    if last.name.Some? {
      StoredNext(s, init, last);
      assert s.fold(last.name.value) in dir <==> s.fold(last.name.value) in dir.Keys;
    }
  }

  /**
   Which archives are extracted: those that unzip to as many entries as files are listed, each a plain file
   with a listed name and its content, no two stored under one name and none over a file that is there.
   */
  lemma ExtractsExactly(s: System, before: Dir, archive: Bytes, files: map<string, string>)
    ensures Extracted(s, before, archive, files).Some? <==>
            && s.unzip(archive).Some? && |s.unzip(archive).value| == |files|
            && NoneCollides(s, before, s.unzip(archive).value, files)
  {
    if s.unzip(archive).Some? {
      UnpacksExactly(s, before, s.unzip(archive).value, files);
    }
  }

  // --- Staging ---

  function Copied(s: System, archive: Bytes, bridge: Bytes, m: Manifest): Dir {
    map[s.fold(m.archiveName) := archive][s.fold(BRIDGE_EXE_NAME) := bridge]
  }

  function Completed(s: System, dir: Dir, m: Manifest): Dir {
    var kept := if m.archiveName in m.files then dir else dir - {s.fold(m.archiveName)};
    kept[s.fold(MANIFEST_NAME) := s.format(m)]
  }

  /** The staging directory once both served files are checked and the archive is unpacked. */
  function StagedFiles(s: System, source: Dir, m: Manifest): Option<Dir> {
    if !s.Has(source, m.archiveName, m.archiveHash) || !s.Has(source, BRIDGE_EXE_NAME, m.bridgeHash) then None
    else
      var copied := Copied(s, s.Read(source, m.archiveName).value, s.Read(source, BRIDGE_EXE_NAME).value, m);
      Extracted(s, copied, copied[s.fold(m.archiveName)], m.files)
  }

  /** The staging directory once everything is checked and written. */
  function Staged(s: System, source: Dir, m: Manifest): Option<Dir> {
    match StagedFiles(s, source, m)
    case None => None
    case Some(dir) => Some(Completed(s, dir, m))
  }

  /** The manifest stores the archive where the bridge goes; its validation does not rule that out. */
  predicate BridgeNamesArchive(s: System, m: Manifest) {
    s.fold(m.archiveName) == s.fold(BRIDGE_EXE_NAME)
  }

  /**
   Which bundles can be staged: the archive and the bridge are served with their listed content, and the
   archive extracts over the copies of these two.
   */
  lemma StagesExactly(s: System, source: Dir, m: Manifest)
    ensures Staged(s, source, m).Some? <==>
            && s.Has(source, m.archiveName, m.archiveHash) && s.Has(source, BRIDGE_EXE_NAME, m.bridgeHash)
            && var archive, bridge := s.Read(source, m.archiveName).value, s.Read(source, BRIDGE_EXE_NAME).value;
               var entries := s.unzip(if BridgeNamesArchive(s, m) then bridge else archive);
               && entries.Some? && |entries.value| == |m.files|
               && NoneCollides(s, Copied(s, archive, bridge, m), entries.value, m.files)
  {
    if StagedFiles(s, source, m).Some? || (s.Has(source, m.archiveName, m.archiveHash)
                                           && s.Has(source, BRIDGE_EXE_NAME, m.bridgeHash)) {
      var archive, bridge := s.Read(source, m.archiveName).value, s.Read(source, BRIDGE_EXE_NAME).value;
      var copied := Copied(s, archive, bridge, m);
      ExtractsExactly(s, copied, copied[s.fold(m.archiveName)], m.files);
    }
  }

  /** An archive listed among its own files never installs: its name is taken when it is to be unpacked. */
  lemma ListedArchiveIsRefused(s: System, archive: Bytes, bridge: Bytes, from: Bytes, m: Manifest)
    requires m.archiveName in m.files
    ensures Extracted(s, Copied(s, archive, bridge, m), from, m.files).None?
  {
    if Extracted(s, Copied(s, archive, bridge, m), from, m.files).Some? {
      ExtractionIsExact(s, Copied(s, archive, bridge, m), from, m.files);
      assert false;
    }
  }

  lemma ReservedNamesAreApart(s: System, m: Manifest)
    requires Sane(s) && Valid(m)
    ensures s.fold(BRIDGE_EXE_NAME) != s.fold(MANIFEST_NAME)
    ensures forall name :: name in m.files ==>
              s.fold(name) != s.fold(BRIDGE_EXE_NAME) && s.fold(name) != s.fold(MANIFEST_NAME)
  {
    assert !SameIgnoringCase(BRIDGE_EXE_NAME, MANIFEST_NAME);
    assert forall name :: name in m.files ==> FileOk(name, m.files[name]);
  }

  /** What becomes of the unpacked directory when the archive goes and the manifest comes. */
  lemma FinishedFiles(s: System, copied: Dir, dir: Dir, m: Manifest)
    requires Sane(s) && Valid(m) && Unpacked(s, copied, dir, m.files.Keys, m.files)
    requires s.fold(m.archiveName) in copied
    ensures var done := (dir - {s.fold(m.archiveName)})[s.fold(MANIFEST_NAME) := s.format(m)];
            && s.ReadManifest(done) == Some(m)
            && forall name :: name in m.files ==> s.Has(done, name, m.files[name])
  {
    ReservedNamesAreApart(s, m);
  }

  lemma StagedParts(s: System, source: Dir, m: Manifest) returns (copied: Dir, dir: Dir)
    requires Staged(s, source, m).Some?
    ensures copied.Keys == {s.fold(m.archiveName), s.fold(BRIDGE_EXE_NAME)}
    ensures s.Has(copied, BRIDGE_EXE_NAME, m.bridgeHash)
    ensures Unpacked(s, copied, dir, m.files.Keys, m.files)
    ensures Staged(s, source, m).value == (dir - {s.fold(m.archiveName)})[s.fold(MANIFEST_NAME) := s.format(m)]
  {
    var archive, bridge := s.Read(source, m.archiveName).value, s.Read(source, BRIDGE_EXE_NAME).value;
    copied := Copied(s, archive, bridge, m);
    var from := copied[s.fold(m.archiveName)];
    dir := Extracted(s, copied, from, m.files).value;
    ExtractionIsExact(s, copied, from, m.files);
    assert m.archiveName !in m.files by {
      if m.archiveName in m.files {
        ListedArchiveIsRefused(s, archive, bridge, from, m);
      }
    }
  }

  /**
   What a successful staging leaves is a complete installation, if and only if the archive is not
   stored under the name of the bridge: then removing the archive removes the bridge.
   */
  lemma StagedIsInstalled(s: System, source: Dir, m: Manifest)
    requires Sane(s) && Valid(m) && Staged(s, source, m).Some?
    ensures Installed(s, Staged(s, source, m).value, m) <==> !BridgeNamesArchive(s, m)
  {
    var copied, dir := StagedParts(s, source, m);
    FinishedFiles(s, copied, dir, m);
    BridgeAfterwards(s, copied, dir, m);
  }

  /** The bridge is still there unless the archive went by its name. */
  lemma BridgeAfterwards(s: System, copied: Dir, dir: Dir, m: Manifest)
    requires Sane(s) && Valid(m) && Unpacked(s, copied, dir, m.files.Keys, m.files)
    requires s.Has(copied, BRIDGE_EXE_NAME, m.bridgeHash)
    ensures var done := (dir - {s.fold(m.archiveName)})[s.fold(MANIFEST_NAME) := s.format(m)];
            s.Has(done, BRIDGE_EXE_NAME, m.bridgeHash) <==> !BridgeNamesArchive(s, m)
  {
    ReservedNamesAreApart(s, m);
  }

  /** Nothing but two directories has changed. */
  ghost predicate SameOutside(before: map<string, Dir>, after: map<string, Dir>, a: string, b: string) {
    forall d :: d != a && d != b ==> (d in after <==> d in before) && (d in after ==> after[d] == before[d])
  }

  /** Without faults the outcome of an installation depends on the data alone. */
  ghost predicate Outcome(s: System, source: Dir, m: Manifest, before: map<string, Dir>, after: map<string, Dir>,
                          stage: string, dest: Option<string>)
  {
    if m.bundleId in before && Installed(s, before[m.bundleId], m) then
      dest == Some(m.bundleId) && after == before
    else if Staged(s, source, m).Some? then
      dest == Some(m.bundleId) && after == (before - {stage})[m.bundleId := Staged(s, source, m).value]
    else
      dest == None && after == before - {stage}
  }

  /**
   Installing the same bundle again, under any tags: the second time succeeds like the first, and it
   finds everything in place and changes nothing exactly when the first left a complete installation,
   which it does unless the bridge names the archive.
   */
  lemma SecondInstallChangesNothing(s: System, source: Dir, m: Manifest, before: map<string, Dir>,
                                    between: map<string, Dir>, after: map<string, Dir>, tag: string, again: string,
                                    first: Option<string>, second: Option<string>)
    requires Sane(s) && s.ReadManifest(source) == Some(m) && first.Some?
    requires Outcome(s, source, m, before, between, StagingName(tag), first)
    requires Outcome(s, source, m, between, after, StagingName(again), second)
    ensures second == first && m.bundleId in between && m.bundleId in after
    ensures Installed(s, between[m.bundleId], m) <==>
            !BridgeNamesArchive(s, m) || (m.bundleId in before && Installed(s, before[m.bundleId], m))
    ensures Installed(s, between[m.bundleId], m) ==> after == between
    ensures !Installed(s, between[m.bundleId], m) ==>
              after == (between - {StagingName(again)})[m.bundleId := between[m.bundleId]]
  {
    if Staged(s, source, m).Some? {
      StagedIsInstalled(s, source, m);
    }
  }

  lemma StageLeavesRest(before: map<string, Dir>, after: map<string, Dir>, stage: string, dest: string)
    requires stage in after && after == before[stage := map[]][stage := after[stage]] && stage != dest
    ensures after - {stage} == before - {stage}
    ensures SameOutside(before, after, stage, stage)
    ensures (dest in after <==> dest in before) && (dest in after ==> after[dest] == before[dest])
  {
  }

  function Zeros(n: nat): string {
    seq(n, _ => '0')
  }

  lemma ExampleNamesAreValid()
    ensures EntryNameOk(BRIDGE_EXE_NAME) && EntryNameOk(CUA_DRIVER_EXE_NAME)
    ensures !SameIgnoringCase(CUA_DRIVER_EXE_NAME, BRIDGE_EXE_NAME)
    ensures !SameIgnoringCase(CUA_DRIVER_EXE_NAME, MANIFEST_NAME)
    ensures HashOk(Zeros(64))
  {
    SmallNames(BRIDGE_EXE_NAME);
    SmallNames(CUA_DRIVER_EXE_NAME);
  }

  lemma {:induction false} SmallNames(name: string)
    ensures Utf8Length(name) <= 4 * |name|
  {
    if name != "" {
      SmallNames(name[..|name| - 1]);
    }
  }

  /**
   The refused case is real: a valid bundle whose bridge is also its archive is staged without a
   fault, and what is published has no bridge.
   */
  lemma BridgeCanVanish(given: System) returns (s: System, source: Dir, m: Manifest)
    requires Sane(given)
    ensures Sane(s) && Valid(m) && BridgeNamesArchive(s, m) && s.ReadManifest(source) == Some(m)
    ensures Staged(s, source, m).Some? && s.Read(Staged(s, source, m).value, BRIDGE_EXE_NAME).None?
  {
    m := ExampleManifest();
    var hash, entry := Zeros(64), Entry(Some(CUA_DRIVER_EXE_NAME), true, Some([]));
    s := given.(hash := (_: Bytes) => hash, unzip := (_: Bytes) => Some([entry]));
    source := map[s.fold(BRIDGE_EXE_NAME) := []][s.fold(MANIFEST_NAME) := s.format(m)];
    ReservedNamesAreApart(s, m);
    ExampleStages(s, source, m, entry);
  }

  lemma ExampleManifest() returns (m: Manifest)
    ensures Valid(m) && m.archiveName == BRIDGE_EXE_NAME && m.archiveHash == m.bridgeHash == Zeros(64)
    ensures m.files == map[CUA_DRIVER_EXE_NAME := Zeros(64)] && EntryNameOk(CUA_DRIVER_EXE_NAME)
  {
    m := Manifest("b", "", BRIDGE_EXE_NAME, Zeros(64), Zeros(64), map[CUA_DRIVER_EXE_NAME := Zeros(64)]);
    ExampleNamesAreValid();
  }

  lemma ExampleStages(s: System, source: Dir, m: Manifest, entry: Entry)
    requires Sane(s) && Valid(m) && m.archiveName == BRIDGE_EXE_NAME && m.archiveHash == m.bridgeHash == s.hash([])
    requires m.files == map[CUA_DRIVER_EXE_NAME := s.hash([])] && EntryNameOk(CUA_DRIVER_EXE_NAME)
    requires s.Read(source, BRIDGE_EXE_NAME) == Some([])
    requires entry == Entry(Some(CUA_DRIVER_EXE_NAME), true, Some([])) && s.unzip([]) == Some([entry])
    ensures Staged(s, source, m).Some? && s.Read(Staged(s, source, m).value, BRIDGE_EXE_NAME).None?
  {
    var copied := Copied(s, [], [], m);
    ReservedNamesAreApart(s, m);
    assert CUA_DRIVER_EXE_NAME in m.files;
    assert Unpack(s, copied, entry, m.files).Some?;
    assert [entry][..0] == [];
    assert UnpackAll(s, copied, [entry], m.files) == Unpack(s, copied, entry, m.files);
    assert BRIDGE_EXE_NAME !in m.files;
  }

  lemma ArchiveStays(s: System, source: Dir, m: Manifest)
    requires StagedFiles(s, source, m).Some?
    ensures s.fold(m.archiveName) in StagedFiles(s, source, m).value
  {
    var copied := Copied(s, s.Read(source, m.archiveName).value, s.Read(source, BRIDGE_EXE_NAME).value, m);
    ExtractionIsExact(s, copied, copied[s.fold(m.archiveName)], m.files);
  }

  /** The directories under the installation base, and the served bundle. */
  class Guest {
    const system: System
    const source: Dir
    /** Whether input and output only fail for a reason in the data. */
    const reliable: bool
    var dirs: map<string, Dir>

    constructor (system: System, source: Dir, reliable: bool)
      ensures this.system == system && this.source == source && this.reliable == reliable && dirs == map[]
    {
      this.system, this.source, this.reliable, dirs := system, source, reliable, map[];
    }

    /** Whether this operation fails by itself. */
    method Fault() returns (fails: bool)
      ensures reliable ==> !fails
    {
      fails := *;
      fails := fails && !reliable;
    }

    /** The check never errs on the side of a bad installation; it can miss a good one on a fault. */
    method IsInstalled(dest: string, m: Manifest) returns (yes: bool)
      ensures yes ==> dest in dirs && Installed(system, dirs[dest], m)
      ensures reliable && dest in dirs && Installed(system, dirs[dest], m) ==> yes
    {
      var fails := Fault();
      if fails || dest !in dirs || system.ReadManifest(dirs[dest]) != Some(m) {
        return false;
      }
      fails := Fault();
      if fails || !system.Has(dirs[dest], BRIDGE_EXE_NAME, m.bridgeHash) {
        return false;
      }
      var rest := m.files.Keys;
      while rest != {}
        invariant rest <= m.files.Keys
        invariant forall name :: name in m.files && name !in rest ==> system.Has(dirs[dest], name, m.files[name])
        decreases |rest|
      {
        var name :| name in rest;
        fails := Fault();
        if fails || !system.Has(dirs[dest], name, m.files[name]) {
          return false;
        }
        rest := rest - {name};
      }
      return true;
    }

    /** Unpack into the staging directory; on failure it holds whatever was unpacked so far. */
    method Extract(archive: Bytes, stage: string, files: map<string, string>) returns (ok: bool)
      requires stage in dirs
      modifies this
      ensures stage in dirs && dirs == old(dirs)[stage := dirs[stage]]
      ensures ok ==> Extracted(system, old(dirs)[stage], archive, files) == Some(dirs[stage])
      ensures reliable && !ok ==> Extracted(system, old(dirs)[stage], archive, files).None?
    {
      var entries := system.unzip(archive);
      var fails := Fault();
      if fails || entries.None? {
        return false;
      }
      ghost var before := dirs[stage];
      var seen := 0;
      for index := 0 to |entries.value|
        invariant stage in dirs && dirs == old(dirs)[stage := dirs[stage]]
        invariant seen == index && UnpackAll(system, before, entries.value[..index], files) == Some(dirs[stage])
      {
        var entry := entries.value[index];
        UnpackNext(system, before, entries.value, index, files);
        var next := Unpack(system, dirs[stage], entry, files);
        fails := Fault();
        if fails || next.None? {
          Refused(system, before, entries.value, index, files);
          var left: Dir := *;
          UpdateAgain(old(dirs), stage, dirs[stage], left);
          dirs := dirs[stage := left];
          return false;
        }
        UpdateAgain(old(dirs), stage, dirs[stage], next.value);
        dirs := dirs[stage := next.value];
        seen := seen + 1;
      }
      assert entries.value[..|entries.value|] == entries.value;
      ok := seen == |files|;
    }

    /** Copy the archive and the bridge, checking each. */
    method CopyParts(stage: string, m: Manifest) returns (ok: bool)
      requires stage in dirs && dirs[stage] == map[]
      modifies this
      ensures stage in dirs && dirs == old(dirs)[stage := dirs[stage]]
      ensures ok ==> system.Has(source, m.archiveName, m.archiveHash)
      ensures ok ==> system.Has(source, BRIDGE_EXE_NAME, m.bridgeHash)
      ensures ok ==> dirs[stage] == Copied(system, system.Read(source, m.archiveName).value,
                                           system.Read(source, BRIDGE_EXE_NAME).value, m)
      ensures reliable && !ok ==>
                !system.Has(source, m.archiveName, m.archiveHash) || !system.Has(source, BRIDGE_EXE_NAME, m.bridgeHash)
    {
      ok := Copy(m.archiveName, stage, m.archiveHash);
      if ok {
        ok := Copy(BRIDGE_EXE_NAME, stage, m.bridgeHash);
      }
    }

    /** Take the archive away unless it is listed, and write the manifest. */
    method Finish(stage: string, m: Manifest) returns (ok: bool)
      requires stage in dirs && system.fold(m.archiveName) in dirs[stage]
      modifies this
      ensures stage in dirs && dirs == old(dirs)[stage := dirs[stage]]
      ensures ok ==> dirs[stage] == Completed(system, old(dirs)[stage], m)
      ensures reliable ==> ok
    {
      var fails := Fault();
      if m.archiveName !in m.files {
        if fails {
          return false;
        }
        dirs := dirs[stage := dirs[stage] - {system.fold(m.archiveName)}];
      }
      fails := Fault();
      if fails {
        return false;
      }
      dirs := dirs[stage := dirs[stage][system.fold(MANIFEST_NAME) := system.format(m)]];
      return true;
    }

    /** The checked files of the bundle, unpacked. */
    method StageFiles(stage: string, m: Manifest) returns (ok: bool)
      requires stage in dirs && dirs[stage] == map[]
      modifies this
      ensures stage in dirs && dirs == old(dirs)[stage := dirs[stage]]
      ensures ok ==> StagedFiles(system, source, m) == Some(dirs[stage])
      ensures reliable && !ok ==> StagedFiles(system, source, m).None?
    {
      ok := CopyParts(stage, m);
      if ok {
        ok := Extract(dirs[stage][system.fold(m.archiveName)], stage, m.files);
      }
    }

    /** Everything the staging directory needs, each part checked before the next. */
    method Stage(stage: string, m: Manifest) returns (ok: bool)
      requires stage in dirs && dirs[stage] == map[]
      modifies this
      ensures stage in dirs && dirs == old(dirs)[stage := dirs[stage]]
      ensures ok ==> Staged(system, source, m) == Some(dirs[stage])
      ensures reliable && !ok ==> Staged(system, source, m).None?
    {
      ok := StageFiles(stage, m);
      if ok {
        ArchiveStays(system, source, m);
        ok := Finish(stage, m);
      }
    }

    /** Copy a file of the bundle and check what arrived. */
    method Copy(name: string, stage: string, expected: string) returns (ok: bool)
      requires stage in dirs
      modifies this
      ensures stage in dirs && dirs == old(dirs)[stage := dirs[stage]]
      ensures ok ==> system.Has(source, name, expected)
      ensures ok ==> dirs[stage] == old(dirs)[stage][system.fold(name) := system.Read(source, name).value]
      ensures reliable && !ok ==> !system.Has(source, name, expected)
    {
      var bytes := system.Read(source, name);
      var fails := Fault();
      if fails || bytes.None? {
        return false;
      }
      dirs := dirs[stage := dirs[stage][system.fold(name) := bytes.value]];
      fails := Fault();
      ok := !fails && system.Has(dirs[stage], name, expected);
    }

    /** On a fault some of the directory can be gone. */
    method RemoveAll(name: string) returns (ok: bool)
      requires name in dirs
      modifies this
      ensures SameOutside(old(dirs), dirs, name, name)
      ensures ok ==> dirs == old(dirs) - {name}
      ensures reliable ==> ok
    {
      var fails := Fault();
      if fails {
        var left: Dir := *;
        dirs := dirs[name := left];
        return false;
      }
      dirs := dirs - {name};
      return true;
    }

    /** Publishing may be refused while the target exists, and leaves everything alone when refused. */
    method Rename(stage: string, dest: string) returns (ok: bool)
      requires stage in dirs && stage != dest
      modifies this
      ensures ok ==> dirs == (old(dirs) - {stage})[dest := old(dirs)[stage]]
      ensures !ok ==> dirs == old(dirs)
      ensures reliable && dest !in old(dirs) ==> ok
    {
      var fails := Fault();
      var refused: bool := *;
      if fails || (dest in dirs && refused) {
        return false;
      }
      dirs := (dirs - {stage})[dest := dirs[stage]];
      return true;
    }

    ghost predicate Ready(dest: string, m: Manifest)
      reads this
    {
      dest in dirs && (Installed(system, dirs[dest], m) || Staged(system, source, m) == Some(dirs[dest]))
    }

    /** Take an incomplete directory out of the way and publish in its place. */
    method Swap(stage: string, dest: string) returns (ok: bool)
      requires stage in dirs && stage != dest
      modifies this
      ensures SameOutside(old(dirs), dirs, stage, dest)
      ensures if ok then dirs == (old(dirs) - {stage})[dest := old(dirs)[stage]] else stage in dirs
      ensures reliable && dest in old(dirs) ==> ok
    {
      ok := false;
      if dest in dirs {
        ok := RemoveAll(dest);
      }
      if ok {
        ok := Rename(stage, dest);
      }
    }

    /** Replace an incomplete directory; a winner that shows up meanwhile is used. */
    method Replace(stage: string, dest: string, m: Manifest) returns (ok: bool)
      requires stage in dirs && stage != dest && Staged(system, source, m) == Some(dirs[stage])
      modifies this
      ensures SameOutside(old(dirs), dirs, stage, dest)
      ensures ok ==> Ready(dest, m)
      ensures reliable && dest in old(dirs) ==> ok && dirs == (old(dirs) - {stage})[dest := old(dirs)[stage]]
    {
      ok := Swap(stage, dest);
      if !ok {
        var _ := RemoveAll(stage);
        ok := IsInstalled(dest, m);
      }
    }

    /** Put the staged directory in the place of `dest`. */
    method Publish(stage: string, dest: string, m: Manifest) returns (ok: bool)
      requires stage in dirs && stage != dest && Staged(system, source, m) == Some(dirs[stage])
      modifies this
      ensures SameOutside(old(dirs), dirs, stage, dest)
      ensures ok ==> Ready(dest, m)
      ensures reliable && (dest in old(dirs) ==> !Installed(system, old(dirs)[dest], m)) ==>
                ok && dirs == (old(dirs) - {stage})[dest := old(dirs)[stage]]
    {
      ok := Rename(stage, dest);
      if ok {
        return;
      }
      ok := IsInstalled(dest, m);
      if ok {
        var _ := RemoveAll(stage);
        return;
      }
      ok := Replace(stage, dest, m);
    }

    /** A fresh staging directory; an old one of the same name is removed first. */
    method NewStage(stage: string) returns (ok: bool)
      modifies this
      ensures SameOutside(old(dirs), dirs, stage, stage)
      ensures ok ==> dirs == old(dirs)[stage := map[]]
      ensures reliable ==> ok
    {
      ok := true;
      if stage in dirs {
        ok := RemoveAll(stage);
      }
      var fails := Fault();
      if !ok || fails {
        return false;
      }
      dirs := dirs[stage := map[]];
    }

    /** Stage and publish an installation that was not found complete. */
    method Rebuild(stage: string, m: Manifest) returns (ok: bool)
      requires stage != m.bundleId
      modifies this
      ensures SameOutside(old(dirs), dirs, stage, m.bundleId)
      ensures ok ==> Ready(m.bundleId, m)
      ensures reliable && !(m.bundleId in old(dirs) && Installed(system, old(dirs)[m.bundleId], m)) ==>
                Outcome(system, source, m, old(dirs), dirs, stage, if ok then Some(m.bundleId) else None)
    {
      ok := NewStage(stage);
      if !ok {
        return;
      }
      ok := this.Stage(stage, m);
      StageLeavesRest(old(dirs), dirs, stage, m.bundleId);
      if !ok {
        var _ := RemoveAll(stage);
        return;
      }
      ok := Publish(stage, m.bundleId, m);
    }

    /**
     Install the served bundle and name its directory. `tag` is the caller's own.
     Success means a ready directory; an installation that is there already is reused untouched.
     */
    method Install(tag: string) returns (dest: Option<string>)
      modifies this
      ensures system.ReadManifest(source).None? ==> dest.None? && dirs == old(dirs)
      ensures dest.Some? ==> system.ReadManifest(source).Some?
      ensures dest.Some? ==> dest.value == system.ReadManifest(source).value.bundleId
      ensures dest.Some? ==> Ready(dest.value, system.ReadManifest(source).value)
      ensures dest.Some? && Sane(system) && !BridgeNamesArchive(system, system.ReadManifest(source).value) ==>
                dest.value in dirs && Installed(system, dirs[dest.value], system.ReadManifest(source).value)
      ensures reliable && system.ReadManifest(source).Some? ==>
                Outcome(system, source, system.ReadManifest(source).value, old(dirs), dirs, StagingName(tag), dest)
      ensures system.ReadManifest(source).Some? ==>
                SameOutside(old(dirs), dirs, StagingName(tag), system.ReadManifest(source).value.bundleId)
    {
      var read := system.ReadManifest(source);
      var fails := Fault();
      if fails || read.None? {
        return None;
      }
      var m := read.value;
      fails := Fault();
      if fails {
        return None;
      }
      var present := IsInstalled(m.bundleId, m);
      if present {
        return Some(m.bundleId);
      }
      var ok := Rebuild(StagingName(tag), m);
      if ok && Sane(system) && Staged(system, source, m).Some? {
        StagedIsInstalled(system, source, m);
      }
      return if ok then Some(m.bundleId) else None;
    }
  }

  /** A name no bundle id can have. */
  function StagingName(tag: string): (name: string)
    ensures forall id :: BundleIdOk(id) ==> name != id
  {
    ".staging-" + tag
  }

  lemma UpdateAgain(dirs: map<string, Dir>, name: string, first: Dir, second: Dir)
    ensures dirs[name := first][name := second] == dirs[name := second]
  {
  }

  lemma UnpackNext(s: System, dir: Dir, entries: seq<Entry>, index: nat, files: map<string, string>)
    requires index < |entries| && UnpackAll(s, dir, entries[..index], files).Some?
    ensures UnpackAll(s, dir, entries[..index + 1], files) ==
            Unpack(s, UnpackAll(s, dir, entries[..index], files).value, entries[index], files)
  {
    assert entries[..index + 1][..index] == entries[..index];
  }

  /** Once an entry is refused the whole archive is. */
  lemma {:induction false} Refused(s: System, dir: Dir, entries: seq<Entry>, index: nat, files: map<string, string>)
    requires index < |entries|
    ensures UnpackAll(s, dir, entries[..index + 1], files).None? ==> UnpackAll(s, dir, entries, files).None?
  {
    if index + 1 < |entries| {
      var init := entries[..|entries| - 1];
      Refused(s, dir, init, index, files);
      assert init[..index + 1] == entries[..index + 1];
    } else {
      assert entries[..index + 1] == entries;
    }
  }
}
