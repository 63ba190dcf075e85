/** Where the bytes of restored media come from: the archive, or the machine that
    the restore runs on. */
module RestoreSources {
  import opened Common
  import opened Paths
  import opened BackupModel
  import opened BackupArtifact
  import opened BackupRestore

  // --- when the archive alone decides -----------------------------------------------------

  // Every entry that is put gets the bytes that the archive unpacks at its path.
  ghost predicate FromArchive(entries: seq<MediaEntry>, files: map<string, Content>, host: map<string, Content>, takes: (string, Value) -> bool) {
    var s := Setting(files, host, takes);
    forall i | 0 <= i < Reach(entries, s) ::
      && MediaPath(entries[i].key.text) in files
      && SourceOf(entries[i].key.text, s) == Some(files[MediaPath(entries[i].key.text)])
  }

  // The entry cannot be put on any machine: its key is no string, its type is
  // missing, the storage refuses it, or a key within the staging directory names
  // no file.
  predicate Blocked(e: MediaEntry, files: map<string, Content>, takes: (string, Value) -> bool) {
    || e.key.NotText? || e.contentType.None? || !takes(e.key.text, e.contentType.value)
    || (!Absolute(e.key.text) && MediaPath(e.key.text) !in files)
  }

  // The key leads out of the staging directory, and no entry before it, nor its
  // own, stops every restore.
  ghost predicate LeadsOut(entries: seq<MediaEntry>, i: nat, files: map<string, Content>, takes: (string, Value) -> bool)
    requires i < |entries|
  {
    Absolute(Shown(entries[i].key)) && forall j | 0 <= j <= i :: !Blocked(entries[j], files, takes)
  }

  function KeysOf(entries: seq<MediaEntry>): set<string> {
    set e | e in entries :: Shown(e.key)
  }

  // A machine whose files under the keys are all this one.
  function HostWith(entries: seq<MediaEntry>, content: Content): map<string, Content> {
    map key | key in KeysOf(entries) :: content
  }

  lemma UnblockedOnHost(entries: seq<MediaEntry>, i: nat, files: map<string, Content>, content: Content, takes: (string, Value) -> bool)
    requires i < |entries| && !Blocked(entries[i], files, takes)
    ensures Puttable(entries[i], Setting(files, HostWith(entries, content), takes))
    ensures Absolute(entries[i].key.text) ==> SourceOf(entries[i].key.text, Setting(files, HostWith(entries, content), takes)) == Some(content)
  {
    assert entries[i] in entries;
  }

  lemma ReachesUnblocked(entries: seq<MediaEntry>, i: nat, files: map<string, Content>, content: Content, takes: (string, Value) -> bool)
    requires i < |entries| && forall j | 0 <= j <= i :: !Blocked(entries[j], files, takes)
    ensures Reach(entries, Setting(files, HostWith(entries, content), takes)) > i
  {
    forall j | 0 <= j <= i ensures Puttable(entries[j], Setting(files, HostWith(entries, content), takes)) {
      UnblockedOnHost(entries, j, files, content, takes);
    }
  }

  // A content that the archive does not have at this path.
  function Other(files: map<string, Content>, path: string): (c: Content)
    ensures path in files ==> files[path] != c
  {
    if path in files && files[path] == Raw([]) then Raw([0]) else Raw([])
  }

  lemma OutsideShows(entries: seq<MediaEntry>, i: nat, files: map<string, Content>, takes: (string, Value) -> bool)
    requires i < |entries| && LeadsOut(entries, i, files, takes)
    ensures exists host :: !FromArchive(entries, files, host, takes)
  {
    var content := Other(files, MediaPath(entries[i].key.text));
    var host := HostWith(entries, content);
    UnblockedOnHost(entries, i, files, content, takes);
    ReachesUnblocked(entries, i, files, content, takes);
    assert !FromArchive(entries, files, host, takes);
  }

  lemma PutIsUnblocked(entries: seq<MediaEntry>, i: nat, s: Setting)
    requires i < Reach(entries, s)
    ensures Puttable(entries[i], s) && !Blocked(entries[i], s.files, s.takes)
  {
    assert entries[..Reach(entries, s)][i] == entries[i];
  }

  lemma InsideIsArchive(entries: seq<MediaEntry>, files: map<string, Content>, host: map<string, Content>, takes: (string, Value) -> bool)
    requires forall i | 0 <= i < |entries| :: !LeadsOut(entries, i, files, takes)
    ensures FromArchive(entries, files, host, takes)
  {
    var s := Setting(files, host, takes);
    forall i | 0 <= i < Reach(entries, s)
      ensures entries[i].key.Text? && !Absolute(entries[i].key.text) && Puttable(entries[i], s)
    {
      forall j | 0 <= j <= i ensures !Blocked(entries[j], files, takes) {
        PutIsUnblocked(entries, j, s);
      }
      PutIsUnblocked(entries, i, s);
      assert !LeadsOut(entries, i, files, takes);
    }
  }

  // Whatever machine restores, the media it puts have the bytes of the archive
  // exactly when no entry whose key begins with a slash can be reached.
  lemma ArchiveDecidesExactly(entries: seq<MediaEntry>, files: map<string, Content>, takes: (string, Value) -> bool)
    ensures (forall host :: FromArchive(entries, files, host, takes))
      <==> forall i | 0 <= i < |entries| :: !LeadsOut(entries, i, files, takes)
  {
    if i :| 0 <= i < |entries| && LeadsOut(entries, i, files, takes) {
      OutsideShows(entries, i, files, takes);
    } else {
      forall host ensures FromArchive(entries, files, host, takes) {
        InsideIsArchive(entries, files, host, takes);
      }
    }
  }

  // In particular, when nothing else stops a restore, exactly when no key begins
  // with a slash.
  lemma RelativeKeysExactly(entries: seq<MediaEntry>, files: map<string, Content>, takes: (string, Value) -> bool)
    requires forall i | 0 <= i < |entries| :: !Blocked(entries[i], files, takes)
    ensures (forall host :: FromArchive(entries, files, host, takes)) <==> forall e | e in entries :: !Absolute(Shown(e.key))
  {
    ArchiveDecidesExactly(entries, files, takes);
    if e :| e in entries && Absolute(Shown(e.key)) {
      var i :| 0 <= i < |entries| && entries[i] == e;
      assert LeadsOut(entries, i, files, takes);
    }
  }

  // What is stored under the key of an entry that was put.
  lemma {:induction false} PutAllAt(before: map<string, Stored>, entries: seq<MediaEntry>, s: Setting, i: nat)
    requires Restorable(entries, s) && i < |entries|
    ensures entries[i].key.text in PutAll(before, entries, s)
    ensures Some(PutAll(before, entries, s)[entries[i].key.text].content) == SourceOf(entries[i].key.text, s)
  {
    if i < |entries| - 1 {
      PutAllAt(before, entries[..|entries| - 1], s, i);
    }
  }

  // So when no key begins with a slash, a restore leaves under the key of every
  // entry it put the bytes that the archive unpacks there.
  lemma RelativeKeysFromArchive(archive: seq<Member>, host: map<string, Content>, takes: (string, Value) -> bool, database: Content,
                                before: map<string, Stored>, after: map<string, Stored>, ok: bool, i: nat)
    requires Accepted(archive) && Restored(archive, host, takes, database, before, after, ok)
    requires forall e | e in ItemsOf(ManifestOf(archive).media) :: !Absolute(Shown(e.key))
    requires i < Reach(ItemsOf(ManifestOf(archive).media), Setting(FilesOf(archive), host, takes))
    ensures
      var key := Shown(ItemsOf(ManifestOf(archive).media)[i].key);
      && key in after && MediaPath(key) in FilesOf(archive)
      && after[key].content == FilesOf(archive)[MediaPath(key)]
  {
    var entries, s := ItemsOf(ManifestOf(archive).media), Setting(FilesOf(archive), host, takes);
    var put := entries[..Reach(entries, s)];
    assert put[i] == entries[i] && entries[i] in entries;
    PutAllAt(before, put, s, i);
  }

  // --- artifacts with one medium ------------------------------------------------------------

  function OneFiles(dump: Content, entry: MediaEntry, content: Content, info: Info): map<string, Content> {
    map[DATABASE := dump, MANIFEST := NewManifest(info, [entry]), MediaName(Shown(entry.key)) := content]
  }

  // An artifact with one medium that is packed as it should be, whatever its key.
  ghost predicate HasOne(archive: seq<Member>, dump: Content, entry: MediaEntry, content: Content, info: Info) {
    var files := OneFiles(dump, entry, content, info);
    && DistinctNames(archive) && Contents(archive) == files[CHECKSUMS := NewIndex(files)]
    && SafeMember(MediaName(Shown(entry.key))) && forall w | w in info.workspaces :: w.kind != ""
  }

  lemma FourNames(key: string)
    ensures DATABASE != MANIFEST && DATABASE != CHECKSUMS && MANIFEST != CHECKSUMS && MediaName(key) !in {DATABASE, MANIFEST, CHECKSUMS}
  {
    MediaPathUnder(key);
    UnderMediaIsNotFixed(MediaName(key));
    assert DATABASE[0] == 'd' && MANIFEST[0] == 'm' && CHECKSUMS[0] == 'c';
  }

  lemma OneName(archive: seq<Member>, dump: Content, entry: MediaEntry, content: Content, info: Info, i: nat)
    requires HasOne(archive, dump, entry, content, info) && i < |archive|
    ensures archive[i].name in {DATABASE, MANIFEST, CHECKSUMS, MediaName(Shown(entry.key))}
  {
    assert archive[i].name in Contents(archive);
  }

  lemma OneIsSafe(archive: seq<Member>, dump: Content, entry: MediaEntry, content: Content, info: Info)
    requires HasOne(archive, dump, entry, content, info)
    ensures AllSafe(archive)
  {
    forall i | 0 <= i < |archive| ensures SafeMember(archive[i].name) {
      OneName(archive, dump, entry, content, info, i);
      if archive[i].name != MediaName(Shown(entry.key)) {
        FixedNameGood(archive[i].name);
      }
    }
  }

  // Its index vouches for every other member.
  lemma OneAgrees(c: map<string, Content>, dump: Content, entry: MediaEntry, content: Content, info: Info)
    requires c == OneFiles(dump, entry, content, info)[CHECKSUMS := NewIndex(OneFiles(dump, entry, content, info))]
    requires forall w | w in info.workspaces :: w.kind != ""
    ensures DATABASE in c && MANIFEST in c && CHECKSUMS in c && AcceptedFiles(c)
    ensures c[DATABASE] == dump && c[MANIFEST] == NewManifest(info, [entry]) && c[MediaName(Shown(entry.key))] == content
  {
    FourNames(Shown(entry.key));
    assert c - {CHECKSUMS} == OneFiles(dump, entry, content, info);
    assert [entry][0] == entry;
    assert Declared([entry]) == {DATABASE, MANIFEST, MediaName(Shown(entry.key))};
    NewIndexVouches(c, c[MANIFEST].fields);
    NewManifestComplete(info, [entry]);
  }

  // So it verifies.
  lemma OneIsAccepted(archive: seq<Member>, dump: Content, entry: MediaEntry, content: Content, info: Info)
    requires HasOne(archive, dump, entry, content, info)
    ensures Accepted(archive) && Contents(archive)[MANIFEST] == NewManifest(info, [entry])
    ensures ManifestOf(archive).media == Items([entry])
  {
    OneIsSafe(archive, dump, entry, content, info);
    OneAgrees(Contents(archive), dump, entry, content, info);
  }

  lemma OnePath(name: string, key: string)
    requires name in {DATABASE, MANIFEST, CHECKSUMS, MediaName(key)}
    ensures name == MediaName(key) ==> Normal(name) == MediaPath(key)
    ensures name != MediaName(key) ==> Normal(name) == name
  {
    if name == MediaName(key) {
      MediaNormal(key);
    } else {
      FixedNormal(name);
    }
  }

  lemma PathsApart(a: string, b: string, key: string)
    requires a in {DATABASE, MANIFEST, CHECKSUMS, MediaPath(key)} && b in {DATABASE, MANIFEST, CHECKSUMS, MediaPath(key)}
    ensures a !in Ancestors(b)
  {
    MediaPathApart(key);
    if b == MediaPath(key) {
    } else if b == DATABASE {
      DatabaseAncestors();
      assert |DATABASE| != 8 && |MANIFEST| != 8 && |CHECKSUMS| != 8;
    } else {
      TopSegments(b);
    }
  }

  lemma OneIsUntangled(archive: seq<Member>, dump: Content, entry: MediaEntry, content: Content, info: Info)
    requires HasOne(archive, dump, entry, content, info)
    ensures Untangled(archive)
  {
    var key := Shown(entry.key);
    forall i, j | 0 <= i < |archive| && 0 <= j < |archive| ensures !Tangles(archive, i, j) {
      OneName(archive, dump, entry, content, info, i);
      OneName(archive, dump, entry, content, info, j);
      OnePath(archive[i].name, key);
      OnePath(archive[j].name, key);
      PathsApart(Normal(archive[i].name), Normal(archive[j].name), key);
    }
  }

  // It unpacks, with the medium at its path.
  lemma OneUnpacks(archive: seq<Member>, dump: Content, entry: MediaEntry, content: Content, info: Info)
    requires HasOne(archive, dump, entry, content, info) && !IsDirectory(MediaName(Shown(entry.key)))
    ensures
      var path := MediaPath(Shown(entry.key));
      && path in FilesOf(archive) && FilesOf(archive)[path] == content
      && forall other | other in FilesOf(archive) :: other in {DATABASE, MANIFEST, CHECKSUMS, path}
  {
    var key := Shown(entry.key);
    MediaPathApart(key);
    FourNames(key);
    assert MediaName(key) in Contents(archive);
    var m :| 0 <= m < |archive| && archive[m].name == MediaName(key);
    OnePath(archive[m].name, key);
    forall j | m < j < |archive| ensures Normal(archive[j].name) != MediaPath(key) {
      OneName(archive, dump, entry, content, info, j);
      OnePath(archive[j].name, key);
    }
    FileKept(archive, m);
    ContentsAt(archive, m);
    forall other | other in FilesOf(archive) ensures other in {DATABASE, MANIFEST, CHECKSUMS, MediaPath(key)} {
      FilesAre(archive, other);
      var i :| 0 <= i < |archive| && StoredUnder(archive, i, other);
      OneName(archive, dump, entry, content, info, i);
      OnePath(archive[i].name, key);
    }
  }

  // It can be staged exactly unless its medium unpacks to the media directory's name.
  lemma OneIsStageable(archive: seq<Member>, dump: Content, entry: MediaEntry, content: Content, info: Info)
    requires HasOne(archive, dump, entry, content, info) && !IsDirectory(MediaName(Shown(entry.key)))
    ensures Accepted(archive) && Untangled(archive) && (Stageable(archive) <==> MediaPath(Shown(entry.key)) != MEDIA)
  {
    OneIsAccepted(archive, dump, entry, content, info);
    OneIsUntangled(archive, dump, entry, content, info);
    OneUnpacks(archive, dump, entry, content, info);
    FixedIsNotMedia();
  }

  lemma FixedIsNotMedia()
    ensures MEDIA !in {DATABASE, MANIFEST, CHECKSUMS}
  {
    assert |DATABASE| > |MEDIA| && |MANIFEST| > |MEDIA| && |CHECKSUMS| > |MEDIA|;
  }

  // --- where restoring departs --------------------------------------------------------------

  lemma OnePut(entry: MediaEntry, s: Setting, before: map<string, Stored>)
    ensures Reach([entry], s) == if Puttable(entry, s) then 1 else 0
    ensures PutAll(before, [entry][..Reach([entry], s)], s) == if Puttable(entry, s) then before[entry.key.text := StoredFor(entry, s)] else before
  {
    assert [entry][0] == entry && [entry][..0] == [];
    ReachAll([entry], s);
    if Puttable(entry, s) {
      PutStep(before, [entry], 0, s);
    }
  }

  // What restoring it leaves.
  lemma OneIsRestored(archive: seq<Member>, dump: Content, entry: MediaEntry, content: Content, info: Info,
                      host: map<string, Content>, takes: (string, Value) -> bool, before: map<string, Stored>)
    requires HasOne(archive, dump, entry, content, info)
    ensures Accepted(archive)
    ensures
      var s := Setting(FilesOf(archive), host, takes);
      Restored(archive, host, takes, dump, before,
               if Puttable(entry, s) then before[entry.key.text := StoredFor(entry, s)] else before, Puttable(entry, s))
  {
    OneIsAccepted(archive, dump, entry, content, info);
    OneAgrees(Contents(archive), dump, entry, content, info);
    OnePut(entry, Setting(FilesOf(archive), host, takes), before);
  }

  // An artifact with the key of a file of the restoring machine is accepted, and
  // that file, not the archive's medium, is put; without the file the restore
  // fails when the database has been replaced.
  lemma HostFileIsPut(archive: seq<Member>, dump: Content, key: string, kind: Value, content: Content, info: Info,
                      host: map<string, Content>, takes: (string, Value) -> bool, before: map<string, Stored>)
    requires HasOne(archive, dump, MediaEntry(Text(key), Some(kind)), content, info)
    requires Absolute(key) && !IsDirectory(MediaName(key)) && MediaPath(key) != MEDIA && takes(key, kind)
    ensures Stageable(archive) && MediaPath(key) in FilesOf(archive) && FilesOf(archive)[MediaPath(key)] == content
    ensures Restored(archive, host, takes, dump, before, if key in host then before[key := Stored(host[key], kind)] else before, key in host)
  {
    var entry := MediaEntry(Text(key), Some(kind));
    OneIsStageable(archive, dump, entry, content, info);
    OneUnpacks(archive, dump, entry, content, info);
    OneIsRestored(archive, dump, entry, content, info, host, takes, before);
  }

  // A key that is no string verifies, and stops the restore on every machine when
  // the database has been replaced.
  lemma OtherKeyStops(archive: seq<Member>, dump: Content, shown: string, kind: Option<Value>, content: Content, info: Info,
                      host: map<string, Content>, takes: (string, Value) -> bool, before: map<string, Stored>)
    requires HasOne(archive, dump, MediaEntry(NotText(shown), kind), content, info)
    requires !IsDirectory(MediaName(shown)) && MediaPath(shown) != MEDIA
    ensures Stageable(archive) && Restored(archive, host, takes, dump, before, before, false)
  {
    var entry := MediaEntry(NotText(shown), kind);
    OneIsStageable(archive, dump, entry, content, info);
    OneIsRestored(archive, dump, entry, content, info, host, takes, before);
  }

  // --- three such artifacts -----------------------------------------------------------------

  function PlainInfo(): Info {
    Info("backup", 0, "revision", [])
  }

  function OneMedium(entry: MediaEntry, name: string): seq<Member> {
    var files := map[DATABASE := Raw([]), MANIFEST := NewManifest(PlainInfo(), [entry]), name := Raw([1])];
    [Member(DATABASE, Raw([])), Member(MANIFEST, NewManifest(PlainInfo(), [entry])), Member(name, Raw([1])), Member(CHECKSUMS, NewIndex(files))]
  }

  lemma TwoContents(a: Member, b: Member)
    requires a.name != b.name
    ensures DistinctNames([a, b]) && Contents([a, b]) == map[a.name := a.content, b.name := b.content]
  {
    AddMember([], a);
    AddMember([a], b);
    assert [] + [a] == [a] && [a] + [b] == [a, b];
  }

  lemma ThreeContents(a: Member, b: Member, c: Member)
    requires a.name != b.name && a.name != c.name && b.name != c.name
    ensures DistinctNames([a, b, c]) && Contents([a, b, c]) == map[a.name := a.content, b.name := b.content, c.name := c.content]
  {
    TwoContents(a, b);
    AddMember([a, b], c);
    assert [a, b] + [c] == [a, b, c];
  }

  lemma OneMediumHasOne(entry: MediaEntry, name: string)
    requires name == MediaName(Shown(entry.key)) && SafeMember(name)
    ensures HasOne(OneMedium(entry, name), Raw([]), entry, Raw([1]), PlainInfo())
  {
    FourNames(Shown(entry.key));
    var archive := OneMedium(entry, name);
    ThreeContents(archive[0], archive[1], archive[2]);
    AddMember(archive[..3], archive[3]);
    assert archive[..3] == [archive[0], archive[1], archive[2]] && archive[..3] + [archive[3]] == archive;
  }

  lemma SlashedSegments(key: string, rest: string)
    requires key == "/" + rest
    ensures Segments(key) == [""] + Segments(rest) && Parts(key) == Parts(rest)
  {
    var empty: string := "";
    SegmentsPrefix(empty, rest);
    assert key == empty + "/" + rest;
    assert Segments(key)[1..] == Segments(rest) && Segments(key)[0] == empty;
  }

  lemma SlashedIsSafe(key: string, rest: string)
    requires key == "/" + rest && Canonical(rest) && ".." !in Segments(rest)
    ensures Absolute(key) && SafeMember(MediaName(key)) && MediaPath(key) == MediaName(rest) && !IsDirectory(MediaName(key))
  {
    SlashedSegments(key, rest);
    MediaPathSegments(key);
    MediaPathIsName(rest, rest);
    CanonicalIsFile(rest);
    CanonicalIsRelative(rest);
    assert rest != "" by { assert Real(Segments(rest)[0]); }
    assert MediaName(key)[0] == MEDIA[0] && MediaName(key)[|MediaName(key)| - 1] == rest[|rest| - 1];
  }

  // The key /etc/hostname: the artifact verifies, and what its restore puts is the
  // file of that name on the machine.
  lemma HostnameIsPut(host: map<string, Content>, takes: (string, Value) -> bool, before: map<string, Stored>)
    requires takes("/etc/hostname", Text("text/plain"))
    ensures
      var key, kind := "/etc/hostname", Text("text/plain");
      var archive := OneMedium(MediaEntry(Text(key), Some(kind)), "media//etc/hostname");
      && Stageable(archive)
      && Restored(archive, host, takes, Raw([]), before, if key in host then before[key := Stored(host[key], kind)] else before, key in host)
  {
    TwoLevelHost("/etc/hostname", "etc", "hostname", "media//etc/hostname", Text("text/plain"), host, takes, before);
  }

  lemma TwoLevelHost(key: string, dir: string, file: string, name: string, kind: Value, host: map<string, Content>,
                     takes: (string, Value) -> bool, before: map<string, Stored>)
    requires key == "/" + (dir + "/" + file) && name == MediaName(key) && takes(key, kind)
    requires '/' !in dir && '/' !in file && Real(dir) && Real(file) && dir != ".." && file != ".."
    ensures
      var archive := OneMedium(MediaEntry(Text(key), Some(kind)), name);
      && Stageable(archive)
      && Restored(archive, host, takes, Raw([]), before, if key in host then before[key := Stored(host[key], kind)] else before, key in host)
  {
    TwoSegments(dir + "/" + file, dir, file);
    SlashedHost(key, dir + "/" + file, name, kind, host, takes, before);
  }

  lemma SlashedHost(key: string, rest: string, name: string, kind: Value, host: map<string, Content>, takes: (string, Value) -> bool,
                    before: map<string, Stored>)
    requires key == "/" + rest && Canonical(rest) && SafeMember(rest) && name == MediaName(key) && takes(key, kind)
    ensures
      var archive := OneMedium(MediaEntry(Text(key), Some(kind)), name);
      && Stageable(archive)
      && Restored(archive, host, takes, Raw([]), before, if key in host then before[key := Stored(host[key], kind)] else before, key in host)
  {
    var entry := MediaEntry(Text(key), Some(kind));
    SlashedIsSafe(key, rest);
    OneMediumHasOne(entry, name);
    assert |MediaName(rest)| > |MEDIA|;
    HostFileIsPut(OneMedium(entry, name), Raw([]), key, kind, Raw([1]), PlainInfo(), host, takes, before);
  }

  // The key of a single dot: the artifact verifies, and its restore fails before
  // anything is written, because the media directory is a file.
  lemma DotIsNoDirectory(kind: Option<Value>)
    ensures
      var archive := OneMedium(MediaEntry(Text("."), kind), "media/.");
      Accepted(archive) && Untangled(archive) && !Stageable(archive)
  {
    var dot: string := ".";
    assert MediaName(dot) == "media/.";
    DotPath(dot);
    FileForMedia(dot, MediaName(dot), kind);
  }

  lemma DotPath(dot: string)
    requires dot == "."
    ensures SafeMember(MediaName(dot)) && MediaPath(dot) == MEDIA && !IsDirectory(MediaName(dot))
  {
    SegmentsOne(dot);
    MediaPathSegments(dot);
    assert [dot][1..] == [] && RealOnly([]) == [] && Parts(dot) == [];
    assert [MEDIA] + Parts(dot) == [MEDIA];
  }

  lemma FileForMedia(key: string, name: string, kind: Option<Value>)
    requires name == MediaName(key) && SafeMember(name) && MediaPath(key) == MEDIA && !IsDirectory(name)
    ensures
      var archive := OneMedium(MediaEntry(Text(key), kind), name);
      Accepted(archive) && Untangled(archive) && !Stageable(archive)
  {
    var entry := MediaEntry(Text(key), kind);
    OneMediumHasOne(entry, name);
    OneIsStageable(OneMedium(entry, name), Raw([]), entry, Raw([1]), PlainInfo());
  }

  // The key 5, a number: the artifact verifies, and its restore fails when the
  // database has been replaced.
  lemma NumberStops(kind: Option<Value>, host: map<string, Content>, takes: (string, Value) -> bool, before: map<string, Stored>)
    ensures
      var archive := OneMedium(MediaEntry(NotText("5"), kind), "media/5");
      Stageable(archive) && Restored(archive, host, takes, Raw([]), before, before, false)
  {
    var shown: string := "5";
    assert MediaName(shown) == "media/5";
    NumberHost(shown, MediaName(shown), kind, host, takes, before);
  }

  lemma NumberHost(shown: string, name: string, kind: Option<Value>, host: map<string, Content>, takes: (string, Value) -> bool,
                   before: map<string, Stored>)
    requires '/' !in shown && Real(shown) && shown != ".." && name == MediaName(shown)
    ensures
      var archive := OneMedium(MediaEntry(NotText(shown), kind), name);
      Stageable(archive) && Restored(archive, host, takes, Raw([]), before, before, false)
  {
    var entry := MediaEntry(NotText(shown), kind);
    TopSegments(shown);
    MediaPathIsName(shown, shown);
    MediaPathSegments(shown);
    CanonicalIsFile(shown);
    OneMediumHasOne(entry, name);
    OtherKeyStops(OneMedium(entry, name), Raw([]), shown, kind, Raw([1]), PlainInfo(), host, takes, before);
  }

  // --- an encryption field ------------------------------------------------------------------

  function ManifestWith(encryption: Encryption): Content {
    Object(NewManifest(PlainInfo(), []).fields.(encryption := encryption), [], true)
  }

  function TwoFiles(encryption: Encryption): map<string, Content> {
    map[DATABASE := Raw([]), MANIFEST := ManifestWith(encryption)]
  }

  function WithoutMedia(encryption: Encryption): seq<Member> {
    [Member(DATABASE, Raw([])), Member(MANIFEST, ManifestWith(encryption)), Member(CHECKSUMS, NewIndex(TwoFiles(encryption)))]
  }

  lemma FixedDiffer()
    ensures DATABASE != MANIFEST && DATABASE != CHECKSUMS && MANIFEST != CHECKSUMS
  {
    assert DATABASE[0] == 'd' && MANIFEST[0] == 'm' && CHECKSUMS[0] == 'c';
  }

  lemma TwoAgree(c: map<string, Content>, encryption: Encryption)
    requires c == TwoFiles(encryption)[CHECKSUMS := NewIndex(TwoFiles(encryption))]
    ensures DATABASE in c && MANIFEST in c && CHECKSUMS in c && AgreeingFiles(c)
    ensures c[MANIFEST] == ManifestWith(encryption) && c[CHECKSUMS] == NewIndex(TwoFiles(encryption))
  {
    FixedDiffer();
    assert c - {CHECKSUMS} == TwoFiles(encryption);
    NewIndexVouches(c, c[MANIFEST].fields);
    NewManifestComplete(PlainInfo(), []);
    assert KnownManifest(c[MANIFEST]) && KnownIndex(c[CHECKSUMS]);
  }

  lemma WithoutMediaPacked(encryption: Encryption)
    ensures
      var archive := WithoutMedia(encryption);
      Packed(archive) && Contents(archive) == TwoFiles(encryption)[CHECKSUMS := NewIndex(TwoFiles(encryption))]
  {
    var archive := WithoutMedia(encryption);
    FixedDiffer();
    ThreeContents(archive[0], archive[1], archive[2]);
    FixedNamesSafe(archive);
    TwoAgree(Contents(archive), encryption);
  }

  lemma AgreeingDecides(c: map<string, Content>)
    requires MANIFEST in c && CHECKSUMS in c && AgreeingFiles(c)
    ensures c[MANIFEST].Object?
    ensures AcceptedFiles(c) <==> !c[MANIFEST].fields.encryption.NotAnObject?
    ensures EscapesHandling(c) <==> c[MANIFEST].fields.encryption.NotAnObject?
  {
  }

  lemma FieldStated(encryption: Encryption)
    ensures ManifestWith(encryption).Object? && ManifestWith(encryption).fields.encryption == encryption
  {
  }

  lemma PackedDecides(archive: seq<Member>, encryption: Encryption)
    requires Packed(archive) && Contents(archive) == TwoFiles(encryption)[CHECKSUMS := NewIndex(TwoFiles(encryption))]
    ensures Accepted(archive) <==> !encryption.NotAnObject?
    ensures EscapesHandling(Contents(archive)) <==> encryption.NotAnObject?
  {
    var c := Contents(archive);
    TwoAgree(c, encryption);
    AgreeingDecides(c);
    FieldStated(encryption);
  }

  // An artifact that agrees in everything verifies exactly when its encryption
  // field is absent or an object; otherwise an error escapes.
  lemma EncryptionDecides(encryption: Encryption)
    ensures Packed(WithoutMedia(encryption))
    ensures Accepted(WithoutMedia(encryption)) <==> !encryption.NotAnObject?
    ensures EscapesHandling(Contents(WithoutMedia(encryption))) <==> encryption.NotAnObject?
  {
    WithoutMediaPacked(encryption);
    PackedDecides(WithoutMedia(encryption), encryption);
  }

  lemma FixedNamesSafe(archive: seq<Member>)
    requires forall i | 0 <= i < |archive| :: archive[i].name in {DATABASE, MANIFEST, CHECKSUMS}
    ensures AllSafe(archive)
  {
    forall i | 0 <= i < |archive| ensures SafeMember(archive[i].name) {
      FixedNameGood(archive[i].name);
    }
  }
}
