/** Verifying an artifact, unpacking it, restoring an instance from it, and the
    round trip through the builder. */
module BackupRestore {
  import opened Common
  import opened Paths
  import opened BackupModel
  import opened BackupArtifact

  // --- verifying -------------------------------------------------------------------------

  // The manifest is not one of ours, or not in a version we read.
  predicate ForeignFormat(manifest: Content, index: Content) {
    manifest.Object? && (!KnownManifest(manifest) || (index.Object? && index.fields.algorithm != Some("sha256")))
  }

  // A file that parses to something without fields, or an encryption field that is
  // no object, fails outside the handled errors.
  predicate NoFields(manifest: Content, index: Content) {
    manifest.OtherJson? || (KnownManifest(manifest) && index.OtherJson?)
  }

  ghost predicate EscapesHandling(c: map<string, Content>)
    requires MANIFEST in c && CHECKSUMS in c
  {
    NoFields(c[MANIFEST], c[CHECKSUMS]) || (AgreeingFiles(c) && c[MANIFEST].fields.encryption.NotAnObject?)
  }

  method ChecksumsHold(c: map<string, Content>, files: map<string, Checksum>) returns (ok: bool)
    ensures ok <==> forall name | name in files :: name in c && files[name] == Sha256(Of(c[name]))
  {
    var rest := files.Keys;
    while rest != {}
      invariant rest <= files.Keys
      invariant forall name | name in files && name !in rest :: name in c && files[name] == Sha256(Of(c[name]))
    {
      var name :| name in rest;
      if name !in c || files[name] == Malformed || files[name].digest != Of(c[name]) {
        return false;
      }
      rest := rest - {name};
    }
    return true;
  }

  method PacksWell(archive: seq<Member>, c: map<string, Content>) returns (ok: bool)
    requires c == Contents(archive)
    ensures ok <==> Packed(archive)
  {
    var distinct := forall i, j | 0 <= i < j < |archive| :: archive[i].name != archive[j].name;
    return AllSafe(archive) && distinct && {MANIFEST, CHECKSUMS, DATABASE} <= c.Keys && Parses(c[MANIFEST]) && Parses(c[CHECKSUMS]);
  }

  method VerifyFiles(c: map<string, Content>) returns (r: Result<Verified, Error>)
    requires MANIFEST in c && CHECKSUMS in c && Parses(c[MANIFEST]) && Parses(c[CHECKSUMS])
    ensures r.Ok? <==> AcceptedFiles(c)
    ensures r.Ok? ==> r.value == Summary(c[MANIFEST].fields)
    ensures r == Err(Compatibility) <==> ForeignFormat(c[MANIFEST], c[CHECKSUMS])
    ensures r == Err(Unexpected) <==> EscapesHandling(c)
    ensures r.Err? ==> r.error in {Integrity, Compatibility, Unexpected}
  {
    if c[MANIFEST].OtherJson? {
      return Err(Unexpected);
    }
    var manifest := c[MANIFEST].fields;
    if manifest.format != Some(FORMAT) || manifest.formatVersion != Some(FORMAT_VERSION) {
      return Err(Compatibility);
    }
    if c[CHECKSUMS].OtherJson? {
      return Err(Unexpected);
    }
    if c[CHECKSUMS].fields.algorithm != Some("sha256") {
      return Err(Compatibility);
    }
    if c[CHECKSUMS].fields.files == None {
      return Err(Integrity);
    }
    var files := c[CHECKSUMS].fields.files.value;
    var hold := ChecksumsHold(c, files);
    if !hold || manifest.media.Unreadable? {
      return Err(Integrity);
    }
    var declared := Declared(ItemsOf(manifest.media));
    if files.Keys != declared || c.Keys != declared + {CHECKSUMS} {
      return Err(Integrity);
    }
    if !Complete(manifest) {
      return Err(Integrity);
    }
    if manifest.encryption.NotAnObject? {
      return Err(Unexpected);
    }
    return Ok(Summary(manifest));
  }

  // Accepts exactly the artifacts whose index and manifest agree with their
  // members, and tells a foreign format from damage.
  method VerifyArtifact(archive: seq<Member>) returns (r: Result<Verified, Error>)
    ensures r.Ok? <==> Accepted(archive)
    ensures r.Ok? ==> r.value == Summary(ManifestOf(archive))
    ensures r.Ok? ==>
              var manifest := ManifestOf(archive);
              && Some(r.value.backupId) == manifest.backupId && Some(r.value.createdAt) == manifest.createdAt
              && Some(r.value.schemaRevision) == manifest.schemaRevision && r.value.mediaCount == |ItemsOf(manifest.media)|
              && r.value.encrypted == (manifest.encryption == Stated(true)) && r.value.workspaces == ItemsOf(manifest.workspaces)
    ensures (exists i :: 0 <= i < |archive| && !StaysInside(archive[i].name)) ==> r == Err(Integrity)
    ensures (exists i, j :: 0 <= i < j < |archive| && archive[i].name == archive[j].name) ==> r == Err(Integrity)
    ensures r == Err(Compatibility) <==> Packed(archive) && ForeignFormat(Contents(archive)[MANIFEST], Contents(archive)[CHECKSUMS])
    ensures r == Err(Unexpected) <==> Packed(archive) && EscapesHandling(Contents(archive))
    ensures r.Err? ==> r.error in {Integrity, Compatibility, Unexpected}
  {
    forall i | 0 <= i < |archive| ensures SafeMember(archive[i].name) <==> StaysInside(archive[i].name) {
      SafeMeansInside(archive[i].name);
    }
    var c := Contents(archive);
    var packed := PacksWell(archive, c);
    if !packed {
      return Err(Integrity);
    }
    r := VerifyFiles(c);
  }

  // --- unpacking -------------------------------------------------------------------------

  // No member is stored under two names or lies inside another.
  ghost predicate Tidy(archive: seq<Member>) {
    && (forall i | 0 <= i < |archive| :: Canonical(archive[i].name))
    && (forall i, j | 0 <= i < |archive| && 0 <= j < |archive| :: archive[i].name !in Ancestors(archive[j].name))
  }

  predicate IsDirectory(name: string) {
    name != "" && name[|name| - 1] == '/'
  }

  // The files that unpacking leaves: each member at its path, the last of equal
  // paths winning.
  function FilesOf(archive: seq<Member>): map<string, Content> {
    if archive == [] then map[] else
      var last := archive[|archive| - 1];
      var before := FilesOf(archive[..|archive| - 1]);
      if IsDirectory(last.name) then before else before[Normal(last.name) := last.content]
  }

  function DirsOf(archive: seq<Member>): set<string> {
    set i, d | 0 <= i < |archive| && d in Ancestors(Normal(archive[i].name)) :: d
  }

  // The file of the i-th member is a directory on the way to the j-th.
  predicate Tangles(archive: seq<Member>, i: nat, j: nat)
    requires i < |archive| && j < |archive|
  {
    !IsDirectory(archive[i].name) && Normal(archive[i].name) in Ancestors(Normal(archive[j].name))
  }

  ghost predicate UntangledUpTo(archive: seq<Member>, n: nat)
    requires n <= |archive|
  {
    forall i, j | 0 <= i < n && 0 <= j < n :: !Tangles(archive, i, j)
  }

  // No file is a directory of another.
  ghost predicate Untangled(archive: seq<Member>) {
    UntangledUpTo(archive, |archive|)
  }

  lemma {:induction false} LastOfEmptyEnd(s: string)
    requires s != "" && s[|s| - 1] == '/'
    ensures Segments(s)[|Segments(s)| - 1] == ""
  {
    if |s| > 1 {
      LastOfEmptyEnd(s[1..]);
    }
  }

  // A canonical name is the name of a file and its own path.
  lemma CanonicalIsFile(name: string)
    requires Canonical(name)
    ensures Normal(name) == name && !IsDirectory(name)
  {
    CanonicalIsNormal(name);
    if IsDirectory(name) {
      LastOfEmptyEnd(name);
    }
  }

  predicate StoredUnder(archive: seq<Member>, i: nat, path: string)
    requires i < |archive|
  {
    !IsDirectory(archive[i].name) && Normal(archive[i].name) == path
  }

  lemma StoredInFront(archive: seq<Member>, n: nat, path: string)
    requires n + 1 == |archive|
    ensures (exists i :: 0 <= i < |archive| && StoredUnder(archive, i, path))
      <==> StoredUnder(archive, n, path) || exists i :: 0 <= i < |archive[..n]| && StoredUnder(archive[..n], i, path)
  {
    assert forall i | 0 <= i < n :: StoredUnder(archive[..n], i, path) == StoredUnder(archive, i, path);
  }

  lemma {:induction false} FilesAre(archive: seq<Member>, path: string)
    ensures path in FilesOf(archive) <==> exists i :: 0 <= i < |archive| && StoredUnder(archive, i, path)
  {
    if archive != [] {
      var n := |archive| - 1;
      FilesAre(archive[..n], path);
      StoredInFront(archive, n, path);
    }
  }

  // A file that no other member overwrites has its own member's content.
  lemma {:induction false} FileKept(archive: seq<Member>, i: nat)
    requires i < |archive| && !IsDirectory(archive[i].name)
    requires forall j | i < j < |archive| :: Normal(archive[j].name) != Normal(archive[i].name)
    ensures Normal(archive[i].name) in FilesOf(archive) && FilesOf(archive)[Normal(archive[i].name)] == archive[i].content
  {
    if i < |archive| - 1 {
      FileKept(archive[..|archive| - 1], i);
    }
  }

  lemma DirsStep(archive: seq<Member>, i: nat)
    requires i < |archive|
    ensures DirsOf(archive[..i + 1]) == DirsOf(archive[..i]) + Ancestors(Normal(archive[i].name))
  {
    var front, next := archive[..i], archive[..i + 1];
    assert next[i] == archive[i] && forall j | 0 <= j < i :: next[j] == front[j];
    forall d | d in DirsOf(front) ensures d in DirsOf(next) {
      var j :| 0 <= j < |front| && d in Ancestors(Normal(front[j].name));
      assert d in Ancestors(Normal(next[j].name));
    }
  }

  // No earlier file is a directory on the way to the next member.
  lemma WayIsFree(archive: seq<Member>, i: nat)
    requires i < |archive|
    ensures Ancestors(Normal(archive[i].name)) !! FilesOf(archive[..i]).Keys <==> forall j | 0 <= j < i :: !Tangles(archive, j, i)
  {
    var front := archive[..i];
    forall j | 0 <= j < i && Tangles(archive, j, i) ensures Normal(front[j].name) in FilesOf(front) {
      assert StoredUnder(front, j, Normal(front[j].name));
      FilesAre(front, Normal(front[j].name));
    }
    forall path | path in FilesOf(front) && path in Ancestors(Normal(archive[i].name)) ensures exists j :: 0 <= j < i && Tangles(archive, j, i) {
      FilesAre(front, path);
      var j :| 0 <= j < |front| && StoredUnder(front, j, path);
      assert Tangles(archive, j, i);
    }
  }

  // The next member's path is no directory so far.
  lemma PathIsFree(archive: seq<Member>, i: nat)
    requires i < |archive|
    ensures IsDirectory(archive[i].name) || Normal(archive[i].name) !in DirsOf(archive[..i + 1]) <==>
              forall j | 0 <= j < i + 1 :: !Tangles(archive, i, j)
  {
    var next := archive[..i + 1];
    forall j | 0 <= j < i + 1 && Tangles(archive, i, j) ensures Normal(archive[i].name) in DirsOf(next) {
      assert Normal(archive[i].name) in Ancestors(Normal(next[j].name));
    }
    if !IsDirectory(archive[i].name) && Normal(archive[i].name) in DirsOf(next) {
      var j :| 0 <= j < |next| && Normal(archive[i].name) in Ancestors(Normal(next[j].name));
      assert Tangles(archive, i, j);
    }
  }

  lemma UntangledStep(archive: seq<Member>, i: nat)
    requires i < |archive| && UntangledUpTo(archive, i)
    ensures
      var target := Normal(archive[i].name);
      UntangledUpTo(archive, i + 1) <==>
        Ancestors(target) !! FilesOf(archive[..i]).Keys && (IsDirectory(archive[i].name) || target !in DirsOf(archive[..i]) + Ancestors(target))
    ensures !UntangledUpTo(archive, i + 1) ==> !Untangled(archive)
  {
    WayIsFree(archive, i);
    PathIsFree(archive, i);
    DirsStep(archive, i);
  }

  lemma FilesStep(archive: seq<Member>, i: nat)
    requires i < |archive|
    ensures FilesOf(archive[..i + 1]) ==
              if IsDirectory(archive[i].name) then FilesOf(archive[..i])
              else FilesOf(archive[..i])[Normal(archive[i].name) := archive[i].content]
  {
    assert archive[..i + 1][..i] == archive[..i];
  }

  method UnpackMember(t: Tree, member: Member) returns (r: Result<Tree, Error>)
    ensures
      var target := Normal(member.name);
      && (r.Ok? <==> Ancestors(target) !! t.files.Keys && (IsDirectory(member.name) || target !in t.dirs + Ancestors(target)))
      && (r.Ok? ==>
            && r.value.dirs == t.dirs + Ancestors(target)
            && r.value.files == if IsDirectory(member.name) then t.files else t.files[target := member.content])
      && (r.Err? ==> r.error == FileSystem)
  {
    var target := Normal(member.name);
    if !(Ancestors(target) !! t.files.Keys) {
      return Err(FileSystem);
    }
    var made := t.(dirs := t.dirs + Ancestors(target));
    if IsDirectory(member.name) {
      return Ok(made);
    }
    if target in made.dirs {
      return Err(FileSystem);
    }
    return Ok(made.(files := made.files[target := member.content]));
  }

  method UnpackAll(archive: seq<Member>) returns (r: Result<Tree, Error>)
    ensures r.Ok? <==> Untangled(archive)
    ensures r.Ok? ==> r.value.files == FilesOf(archive)
    ensures r.Err? ==> r.error == FileSystem
  {
    var tree := Tree(map[], {});
    assert archive[..0] == [];
    for i := 0 to |archive|
      invariant tree == Tree(FilesOf(archive[..i]), DirsOf(archive[..i])) && UntangledUpTo(archive, i)
    {
      UntangledStep(archive, i);
      FilesStep(archive, i);
      DirsStep(archive, i);
      var unpacked := UnpackMember(tree, archive[i]);
      if unpacked.Err? {
        return unpacked;
      }
      tree := unpacked.value;
    }
    assert archive[..|archive|] == archive;
    return Ok(tree);
  }

  // Tidy archives unpack member by member.
  lemma {:induction false} TidyFiles(archive: seq<Member>)
    requires Tidy(archive)
    ensures Untangled(archive) && FilesOf(archive) == Contents(archive)
  {
    forall i | 0 <= i < |archive| ensures Normal(archive[i].name) == archive[i].name && !IsDirectory(archive[i].name) {
      CanonicalIsFile(archive[i].name);
    }
    if archive != [] {
      var front := archive[..|archive| - 1];
      assert forall i | 0 <= i < |front| :: front[i] == archive[i];
      TidyFiles(front);
    }
  }

  // In an accepted archive nothing but the dump comes to lie at the dump's path,
  // and nothing but the manifest at the manifest's.
  lemma FixedUnpacks(archive: seq<Member>, name: string)
    requires Accepted(archive) && name in {DATABASE, MANIFEST}
    ensures name in FilesOf(archive) && FilesOf(archive)[name] == Contents(archive)[name]
  {
    var i :| 0 <= i < |archive| && archive[i].name == name;
    FixedNormal(name);
    forall j | i < j < |archive| ensures Normal(archive[j].name) != name {
      NamesApart(archive, j, name);
    }
    FileKept(archive, i);
    ContentsAt(archive, i);
  }

  lemma AcceptedDeclares(archive: seq<Member>)
    requires Accepted(archive)
    ensures Contents(archive).Keys == Declared(ItemsOf(ManifestOf(archive).media)) + {CHECKSUMS}
  {
  }

  lemma DeclaredNames(entries: seq<MediaEntry>, name: string) returns (k: nat)
    requires name in Declared(entries)
    ensures name in {DATABASE, MANIFEST} || (k < |entries| && name == MediaName(Shown(entries[k].key)))
  {
    k := 0;
    if name !in {DATABASE, MANIFEST} {
      k :| 0 <= k < |entries| && MediaName(Shown(entries[k].key)) == name;
    }
  }

  lemma DeclaredApart(entries: seq<MediaEntry>, name: string, fixed: string)
    requires name in Declared(entries) + {CHECKSUMS} && fixed in {DATABASE, MANIFEST} && name != fixed
    ensures Normal(name) != fixed
  {
    if name in {DATABASE, MANIFEST, CHECKSUMS} {
      FixedNormal(name);
    } else {
      var k := DeclaredNames(entries, name);
      MediaNormal(Shown(entries[k].key));
      MediaPathApart(Shown(entries[k].key));
    }
  }

  lemma NamesApart(archive: seq<Member>, j: nat, fixed: string)
    requires Accepted(archive) && j < |archive| && fixed in {DATABASE, MANIFEST} && archive[j].name != fixed
    ensures Normal(archive[j].name) != fixed
  {
    AcceptedDeclares(archive);
    assert archive[j].name in Contents(archive);
    DeclaredApart(ItemsOf(ManifestOf(archive).media), archive[j].name, fixed);
  }

  lemma FixedNormal(name: string)
    requires name in {DATABASE, MANIFEST, CHECKSUMS}
    ensures Normal(name) == name && !IsDirectory(name)
  {
    FixedNameGood(name);
    CanonicalIsFile(name);
  }

  lemma MediaNormal(key: string)
    ensures Normal(MediaName(key)) == MediaPath(key)
  {
    MediaPathSegments(key);
    assert ([MEDIA] + Segments(key))[1..] == Segments(key);
  }

  ghost predicate Extractable(archive: seq<Member>) {
    Accepted(archive) && Untangled(archive) && Contents(archive)[MANIFEST].plain
  }

  // Verifies, unpacks, and reads the unpacked manifest.  Unpacking fails exactly
  // when a file is a directory of another, reading when the manifest is no text.
  method ExtractVerified(archive: seq<Member>) returns (r: Result<(Tree, Fields), Error>)
    ensures r.Ok? <==> Extractable(archive)
    ensures r.Ok? ==> r.value.0.files == FilesOf(archive) && r.value.1 == ManifestOf(archive)
    ensures Accepted(archive) && r.Err? ==> r.error == if Untangled(archive) then Unexpected else FileSystem
    ensures !Accepted(archive) ==> r.error in {Integrity, Compatibility, Unexpected}
  {
    var verified := VerifyArtifact(archive);
    if verified.Err? {
      return Err(verified.error);
    }
    var unpacked := UnpackAll(archive);
    if unpacked.Err? {
      return Err(unpacked.error);
    }
    FixedUnpacks(archive, MANIFEST);
    var manifest := unpacked.value.files[MANIFEST];
    if !manifest.plain {
      return Err(Unexpected);
    }
    return Ok((unpacked.value, manifest.fields));
  }

  // --- restoring -------------------------------------------------------------------------

  // takes says whether the storage takes a key with a content type.
  class Instance {
    const takes: (string, Value) -> bool
    var database: Content
    var media: map<string, Stored>

    constructor (takes: (string, Value) -> bool, database: Content, media: map<string, Stored>)
      ensures this.takes == takes && this.database == database && this.media == media
    {
      this.takes, this.database, this.media := takes, database, media;
    }
  }

  predicate Absolute(key: string) {
    key != "" && key[0] == '/'
  }

  // Where the bytes of a medium can come from: the staged copy of the unpacked
  // files, the files of the machine that restores, and what the storage takes.
  datatype Setting = Setting(files: map<string, Content>, host: map<string, Content>, takes: (string, Value) -> bool)

  // Joining an absolute key to the staging directory leads out of it.
  function SourceOf(key: string, s: Setting): Option<Content> {
    if Absolute(key) then
      if key in s.host then Some(s.host[key]) else None
    else
      if MediaPath(key) in s.files then Some(s.files[MediaPath(key)]) else None
  }

  predicate Puttable(e: MediaEntry, s: Setting) {
    e.key.Text? && SourceOf(e.key.text, s).Some? && e.contentType.Some? && s.takes(e.key.text, e.contentType.value)
  }

  predicate Restorable(entries: seq<MediaEntry>, s: Setting) {
    forall i | 0 <= i < |entries| :: Puttable(entries[i], s)
  }

  function StoredFor(e: MediaEntry, s: Setting): Stored
    requires Puttable(e, s)
  {
    Stored(SourceOf(e.key.text, s).value, e.contentType.value)
  }

  // Every entry put in order, the last of equal keys winning.
  function PutAll(media: map<string, Stored>, entries: seq<MediaEntry>, s: Setting): map<string, Stored>
    requires Restorable(entries, s)
  {
    if entries == [] then media else
      var last := entries[|entries| - 1];
      PutAll(media, entries[..|entries| - 1], s)[last.key.text := StoredFor(last, s)]
  }

  // How many entries are put: those before the first that cannot be.
  function Reach(entries: seq<MediaEntry>, s: Setting): (n: nat)
    ensures n <= |entries| && Restorable(entries[..n], s)
    ensures n < |entries| ==> !Puttable(entries[n], s)
  {
    if entries == [] then 0 else
      var front := entries[..|entries| - 1];
      var n := Reach(front, s);
      assert n <= |front| && front[..n] == entries[..n];
      if n == |front| && Puttable(entries[n], s) then |entries| else n
  }

  lemma ReachIs(entries: seq<MediaEntry>, s: Setting, n: nat)
    requires n <= |entries| && Restorable(entries[..n], s) && (n < |entries| ==> !Puttable(entries[n], s))
    ensures Reach(entries, s) == n
  {
    var m := Reach(entries, s);
    assert forall i | 0 <= i < n :: entries[..n][i] == entries[i];
    assert forall i | 0 <= i < m :: entries[..m][i] == entries[i];
  }

  lemma ReachAll(entries: seq<MediaEntry>, s: Setting)
    ensures Reach(entries, s) == |entries| <==> Restorable(entries, s)
    ensures entries[..|entries|] == entries
  {
    var n := Reach(entries, s);
    assert n < |entries| ==> !Puttable(entries[n], s);
    assert n == |entries| ==> entries[..n] == entries;
  }

  lemma PutStep(target: map<string, Stored>, entries: seq<MediaEntry>, i: nat, s: Setting)
    requires i < |entries| && Restorable(entries[..i], s) && Puttable(entries[i], s)
    ensures Restorable(entries[..i + 1], s)
    ensures PutAll(target, entries[..i + 1], s) == PutAll(target, entries[..i], s)[entries[i].key.text := StoredFor(entries[i], s)]
  {
    assert entries[..i + 1][..i] == entries[..i];
  }

  // Restores the dump, then puts the entries in order and stops at the first that
  // cannot be put.
  method WriteInstance(instance: Instance, files: map<string, Content>, host: map<string, Content>, entries: seq<MediaEntry>)
    returns (ok: bool)
    requires DATABASE in files
    modifies instance
    ensures instance.database == files[DATABASE]
    ensures
      var s := Setting(files, host, instance.takes);
      && (ok <==> Reach(entries, s) == |entries|)
      && instance.media == PutAll(old(instance.media), entries[..Reach(entries, s)], s)
  {
    ghost var s := Setting(files, host, instance.takes);
    instance.database := files[DATABASE];
    assert entries[..0] == [];
    for i := 0 to |entries|
      invariant instance.database == files[DATABASE]
      invariant Restorable(entries[..i], s)
      invariant instance.media == PutAll(old(instance.media), entries[..i], s)
    {
      var written := PutEntry(instance, files, host, entries[i]);
      if !written {
        ReachIs(entries, s, i);
        return false;
      }
      PutStep(old(instance.media), entries, i, s);
    }
    ReachIs(entries, s, |entries|);
    return true;
  }

  // One entry: its path is joined, its bytes are read, and it is put.
  method PutEntry(instance: Instance, files: map<string, Content>, host: map<string, Content>, entry: MediaEntry) returns (ok: bool)
    modifies instance`media
    ensures ok <==> Puttable(entry, Setting(files, host, instance.takes))
    ensures ok ==> instance.media == old(instance.media)[entry.key.text := StoredFor(entry, Setting(files, host, instance.takes))]
    ensures !ok ==> instance.media == old(instance.media)
  {
    if entry.key.NotText? {
      return false;
    }
    var key := entry.key.text;
    var there, path := if Absolute(key) then host else files, if Absolute(key) then key else MediaPath(key);
    if path !in there || entry.contentType == None || !instance.takes(key, entry.contentType.value) {
      return false;
    }
    instance.media := instance.media[key := Stored(there[path], entry.contentType.value)];
    return true;
  }

  // The unpacked artifact can be staged: its media, if any, lie in a directory.
  ghost predicate Stageable(archive: seq<Member>) {
    Extractable(archive) && MEDIA !in FilesOf(archive)
  }

  // What restoring an accepted artifact that can be staged amounts to.
  ghost predicate Restored(archive: seq<Member>, host: map<string, Content>, takes: (string, Value) -> bool, database: Content,
                           before: map<string, Stored>, after: map<string, Stored>, ok: bool)
    requires Accepted(archive)
  {
    var entries, s := ItemsOf(ManifestOf(archive).media), Setting(FilesOf(archive), host, takes);
    && database == Contents(archive)[DATABASE]
    && (ok <==> Reach(entries, s) == |entries|)
    && after == PutAll(before, entries[..Reach(entries, s)], s)
  }

  // Unpacks the artifact, stages its media and writes it to the instance.
  method ReplaceInstance(archive: seq<Member>, instance: Instance, host: map<string, Content>) returns (failure: Option<Error>)
    requires Accepted(archive)
    modifies instance
    ensures failure in {None, Some(Incomplete)} <==> Stageable(archive)
    ensures failure in {None, Some(Incomplete)} ==>
              Restored(archive, host, instance.takes, instance.database, old(instance.media), instance.media, failure == None)
    ensures failure !in {None, Some(Incomplete)} ==>
              && failure == Some(if Untangled(archive) && !Contents(archive)[MANIFEST].plain then Unexpected else FileSystem)
              && instance.database == old(instance.database) && instance.media == old(instance.media)
  {
    var extracted := ExtractVerified(archive);
    if extracted.Err? {
      return Some(extracted.error);
    }
    var tree, manifest := extracted.value.0, extracted.value.1;
    if MEDIA in tree.files {
      return Some(FileSystem); // only a directory can be copied as one
    }
    FixedUnpacks(archive, DATABASE);
    var restored := WriteInstance(instance, tree.files, host, ItemsOf(manifest.media));
    return if restored then None else Some(Incomplete);
  }

  // What a restore asks for before it writes anything.
  ghost predicate MayRestore(archive: seq<Member>, expectedSchemaRevision: string, confirmed: bool) {
    confirmed && Accepted(archive) && ManifestOf(archive).schemaRevision == Some(Text(expectedSchemaRevision))
  }

  method CheckRestore(archive: seq<Member>, expectedSchemaRevision: string, confirmed: bool) returns (r: Result<Verified, Error>)
    ensures r.Ok? <==> MayRestore(archive, expectedSchemaRevision, confirmed)
    ensures r.Ok? ==> r.value == Summary(ManifestOf(archive))
    ensures r == Err(Unconfirmed) <==> !confirmed
    ensures r == Err(SchemaMismatch) <==> confirmed && Accepted(archive) && ManifestOf(archive).schemaRevision != Some(Text(expectedSchemaRevision))
    ensures r.Err? ==> r.error in {Unconfirmed, SchemaMismatch, Integrity, Compatibility, Unexpected}
  {
    if !confirmed {
      return Err(Unconfirmed);
    }
    r := VerifyArtifact(archive);
    if r.Ok? && r.value.schemaRevision != Text(expectedSchemaRevision) {
      return Err(SchemaMismatch);
    }
  }

  // A failure before the database is touched leaves the instance as it was; an
  // artifact that can be staged replaces the database and puts the media entries
  // in order up to the first that cannot be put.  host has the files of the
  // machine that the restore runs on.
  method Restore(archive: seq<Member>, instance: Instance, host: map<string, Content>, expectedSchemaRevision: string, confirmed: bool)
    returns (r: Result<Verified, Error>)
    modifies instance
    ensures r == Err(Unconfirmed) <==> !confirmed
    ensures r == Err(SchemaMismatch) <==> confirmed && Accepted(archive) && ManifestOf(archive).schemaRevision != Some(Text(expectedSchemaRevision))
    ensures confirmed && !Accepted(archive) ==> r.Err? && r.error in {Integrity, Compatibility, Unexpected}
    ensures r.Ok? || r == Err(Incomplete) <==> MayRestore(archive, expectedSchemaRevision, confirmed) && Stageable(archive)
    ensures r.Ok? || r == Err(Incomplete) ==>
              Restored(archive, host, instance.takes, instance.database, old(instance.media), instance.media, r.Ok?)
    ensures MayRestore(archive, expectedSchemaRevision, confirmed) && !Stageable(archive) ==>
              r == Err(if Untangled(archive) && !Contents(archive)[MANIFEST].plain then Unexpected else FileSystem)
    ensures r.Err? && r.error != Incomplete ==> instance.database == old(instance.database) && instance.media == old(instance.media)
    ensures r.Ok? ==> r.value == Summary(ManifestOf(archive))
  {
    r := CheckRestore(archive, expectedSchemaRevision, confirmed);
    if r.Err? {
      return;
    }
    var failure := ReplaceInstance(archive, instance, host);
    if failure.Some? {
      return Err(failure.value);
    }
  }

  // --- the round trip -----------------------------------------------------------------------

  predicate Good(name: string) {
    SafeMember(name) && Canonical(name)
  }

  lemma FixedNameGood(name: string)
    requires name in {DATABASE, MANIFEST, CHECKSUMS}
    ensures Good(name)
  {
    if name == DATABASE {
      TwoSegments(name, "database", "postgres.dump");
    } else {
      TopSegments(name);
    }
  }

  lemma MediaPathGood(key: string)
    requires SafeMember(key)
    ensures SafeMember(MediaPath(key)) && (Canonical(key) ==> Good(MediaPath(key)))
  {
    MediaPathSafe(key);
    MediaPathSegments(key);
    if Canonical(key) {
      AllReal(Segments(key));
    }
  }

  lemma NameGood(name: string, keys: seq<string>)
    requires name in {DATABASE, MANIFEST, CHECKSUMS} + MediaPaths(keys)
    requires forall k | 0 <= k < |keys| :: SafeMember(keys[k])
    ensures SafeMember(name) && (CanonicalKeys(keys) ==> Good(name))
  {
    if name in MediaPaths(keys) {
      var k :| 0 <= k < |keys| && MediaPath(keys[k]) == name;
      MediaPathGood(keys[k]);
    } else {
      FixedNameGood(name);
    }
  }

  lemma BuiltNamesSafe(archive: seq<Member>, dump: Content, keys: seq<string>, media: map<string, Stored>, info: Info, i: nat)
    requires Built(archive, dump, keys, media, info) && i < |archive|
    requires forall k | 0 <= k < |keys| :: SafeMember(keys[k])
    ensures SafeMember(archive[i].name)
    ensures CanonicalKeys(keys) ==> Canonical(archive[i].name)
  {
    assert archive[i].name in Contents(archive).Keys;
    NameGood(archive[i].name, keys);
  }

  lemma BuiltAllSafe(archive: seq<Member>, dump: Content, keys: seq<string>, media: map<string, Stored>, info: Info)
    requires Built(archive, dump, keys, media, info)
    requires forall k | 0 <= k < |keys| :: SafeMember(keys[k])
    ensures AllSafe(archive)
  {
    forall i | 0 <= i < |archive| ensures SafeMember(archive[i].name) {
      BuiltNamesSafe(archive, dump, keys, media, info, i);
    }
  }

  lemma BuiltIsPacked(archive: seq<Member>, dump: Content, keys: seq<string>, media: map<string, Stored>, info: Info)
    requires Built(archive, dump, keys, media, info) && AllSafe(archive)
    ensures Packed(archive)
  {
    var c := Contents(archive);
    assert MANIFEST in c && CHECKSUMS in c && DATABASE in c;
    assert c[MANIFEST].Object? && c[CHECKSUMS].Object?;
  }

  lemma IndexIsNoMedia(keys: seq<string>)
    ensures CHECKSUMS !in MediaPaths(keys)
  {
    forall i | 0 <= i < |keys| ensures MediaPath(keys[i]) != CHECKSUMS {
      MediaPathApart(keys[i]);
    }
  }

  // The new index has the digest of every other file.
  lemma NewIndexVouches(c: map<string, Content>, manifest: Fields)
    requires CHECKSUMS in c && !manifest.media.Unreadable?
    ensures
      var declared := Declared(ItemsOf(manifest.media));
      IndexFits(c, manifest, NewIndex(c - {CHECKSUMS}).fields.files.value)
      <==> c.Keys - {CHECKSUMS} == declared && c.Keys == declared + {CHECKSUMS}
  {
    var files := NewIndex(c - {CHECKSUMS}).fields.files.value;
    assert files.Keys == c.Keys - {CHECKSUMS};
  }

  lemma NewIndexFits(c: map<string, Content>, keys: seq<string>, entries: seq<MediaEntry>, manifest: Fields)
    requires c.Keys == {DATABASE, MANIFEST, CHECKSUMS} + MediaPaths(keys)
    requires |entries| == |keys| && forall i | 0 <= i < |keys| :: entries[i].key == Text(keys[i])
    requires manifest.media == Items(entries)
    ensures IndexFits(c, manifest, NewIndex(c - {CHECKSUMS}).fields.files.value) <==> CanonicalKeys(keys)
  {
    NewIndexVouches(c, manifest);
    IndexIsNoMedia(keys);
    DeclaresExactlyCanonical(keys, entries);
    var files := {DATABASE, MANIFEST} + MediaPaths(keys);
    assert c.Keys == files + {CHECKSUMS} && c.Keys - {CHECKSUMS} == files;
  }

  lemma BuiltFilesAccepted(c: map<string, Content>, dump: Content, keys: seq<string>, media: map<string, Stored>, info: Info)
    requires BuiltFiles(c, dump, keys, media, info)
    ensures AcceptedFiles(c) <==> CanonicalKeys(keys) && forall w | w in info.workspaces :: w.kind != ""
  {
    var entries := EntriesOf(keys, media);
    NewIndexFits(c, keys, entries, c[MANIFEST].fields);
    NewManifestComplete(info, entries);
    assert KnownManifest(c[MANIFEST]) && KnownIndex(c[CHECKSUMS]) && c[CHECKSUMS].fields.files.Some?;
  }

  lemma NewManifestComplete(info: Info, entries: seq<MediaEntry>)
    ensures Complete(NewManifest(info, entries).fields) <==> forall w | w in info.workspaces :: w.kind != ""
  {
  }

  // What the builder makes is accepted exactly when every media key is a
  // canonical path and every workspace has a type.
  lemma BuiltIsAccepted(archive: seq<Member>, dump: Content, keys: seq<string>, media: map<string, Stored>, info: Info)
    requires Buildable(keys, media) && Built(archive, dump, keys, media, info)
    ensures Accepted(archive) <==> CanonicalKeys(keys) && forall w | w in info.workspaces :: w.kind != ""
  {
    BuiltAllSafe(archive, dump, keys, media, info);
    BuiltIsPacked(archive, dump, keys, media, info);
    BuiltFilesAccepted(Contents(archive), dump, keys, media, info);
  }

  // Verifying what the builder made reports what went into it, without
  // encryption, under the names and the format that other versions look for.
  lemma BuiltReports(archive: seq<Member>, dump: Content, keys: seq<string>, media: map<string, Stored>, info: Info)
    requires Built(archive, dump, keys, media, info) && Accepted(archive)
    ensures Summary(ManifestOf(archive))
         == Verified(Text(info.backupId), info.createdAt, Text(info.schemaRevision), |keys|, false, info.workspaces)
    ensures
      var c := Contents(archive);
      && "database/postgres.dump" in c && c["database/postgres.dump"] == dump
      && "manifest.json" in c && c["manifest.json"].Object?
      && c["manifest.json"].fields.format == Some("wherehouse-portable-backup") && c["manifest.json"].fields.formatVersion == Some(1)
      && "checksums.json" in c && c["checksums.json"].Object? && c["checksums.json"].fields.algorithm == Some("sha256")
  {
  }

  lemma NoClashApart(keys: seq<string>, i: nat, j: nat)
    requires forall i, j | 0 <= i < j < |keys| :: !Clash(keys[i], keys[j])
    requires i < |keys| && j < |keys|
    ensures MediaPath(keys[i]) !in Ancestors(MediaPath(keys[j]))
  {
    if i != j {
      assert !Clash(keys[if i < j then i else j], keys[if i < j then j else i]);
    }
  }

  lemma MediaApart(keys: seq<string>, a: string, j: nat)
    requires forall i, j | 0 <= i < j < |keys| :: !Clash(keys[i], keys[j])
    requires a in MediaPaths(keys) && j < |keys|
    ensures a !in Ancestors(MediaPath(keys[j]))
  {
    var i :| 0 <= i < |keys| && MediaPath(keys[i]) == a;
    NoClashApart(keys, i, j);
  }

  lemma DatabaseApart(keys: seq<string>, a: string)
    requires a in {DATABASE, MANIFEST, CHECKSUMS} + MediaPaths(keys)
    ensures a !in Ancestors(DATABASE)
  {
    DatabaseAncestors();
    if a in MediaPaths(keys) {
      var i :| 0 <= i < |keys| && MediaPath(keys[i]) == a;
      MediaPathApart(keys[i]);
    }
    assert |DATABASE| != 8 && |MANIFEST| != 8 && |CHECKSUMS| != 8;
  }

  lemma NoNesting(keys: seq<string>, a: string, b: string)
    requires forall i, j | 0 <= i < j < |keys| :: !Clash(keys[i], keys[j])
    requires a in {DATABASE, MANIFEST, CHECKSUMS} + MediaPaths(keys)
    requires b in {DATABASE, MANIFEST, CHECKSUMS} + MediaPaths(keys)
    ensures a !in Ancestors(b)
  {
    if b in MediaPaths(keys) {
      var j :| 0 <= j < |keys| && MediaPath(keys[j]) == b;
      MediaPathApart(keys[j]);
      if a in MediaPaths(keys) {
        MediaApart(keys, a, j);
      }
    } else if b == DATABASE {
      DatabaseApart(keys, a);
    } else {
      TopSegments(b);
    }
  }

  // A doubled slash is a key that can be stored and backed up, and whose backup
  // no restore accepts.
  lemma DoubledSlashIsRefused(archive: seq<Member>, dump: Content, a: string, b: string, media: map<string, Stored>, info: Info)
    requires '/' !in a && '/' !in b && a != "" && a != ".." && b != ".."
    requires a + "//" + b in media && Built(archive, dump, [a + "//" + b], media, info)
    ensures Buildable([a + "//" + b], media) && !Accepted(archive)
  {
    var key := a + "//" + b;
    DoubledSlash(a, b);
    assert [key][0] == key;
    BuiltIsAccepted(archive, dump, [key], media, info);
  }

  lemma DoubledSlash(a: string, b: string)
    requires '/' !in a && '/' !in b && a != "" && a != ".." && b != ".."
    ensures SafeMember(a + "//" + b) && !Canonical(a + "//" + b)
  {
    var empty: string := "";
    SegmentsOne(b);
    SegmentsPrefix(empty, b);
    SegmentsPrefix(a, empty + "/" + b);
    assert a + "//" + b == a + "/" + (empty + "/" + b);
    assert Segments(a + "//" + b)[1] == empty;
  }

  lemma BuiltIsTidy(archive: seq<Member>, dump: Content, keys: seq<string>, media: map<string, Stored>, info: Info)
    requires Buildable(keys, media) && Built(archive, dump, keys, media, info) && CanonicalKeys(keys)
    ensures Tidy(archive)
  {
    forall i | 0 <= i < |archive| ensures Canonical(archive[i].name) {
      BuiltNamesSafe(archive, dump, keys, media, info, i);
    }
    forall i, j | 0 <= i < |archive| && 0 <= j < |archive| ensures archive[i].name !in Ancestors(archive[j].name) {
      assert archive[i].name in Contents(archive).Keys && archive[j].name in Contents(archive).Keys;
      NoNesting(keys, archive[i].name, archive[j].name);
    }
  }

  // Canonical keys have a path each, so every key's own bytes were stored.
  lemma {:induction false} CanonicalStored(c: map<string, Content>, keys: seq<string>, media: map<string, Stored>, i: nat)
    requires LastWritten(c, keys, media) && CanonicalKeys(keys) && i < |keys|
    ensures c[MediaPath(keys[i])] == media[keys[i]].content
    decreases |keys| - i
  {
    if j :| i < j < |keys| && MediaPath(keys[j]) == MediaPath(keys[i]) {
      MediaPathIsName(keys[i], keys[i]);
      MediaPathIsName(keys[j], keys[j]);
      MediaNameInjective(keys[i], keys[j]);
      CanonicalStored(c, keys, media, j);
    } else {
      assert NoLater(keys, i);
    }
  }

  function Restricted(media: map<string, Stored>, keys: seq<string>): map<string, Stored> {
    map k | k in keys && k in media :: media[k]
  }

  lemma OneMoreRestricted(media: map<string, Stored>, keys: seq<string>, key: string)
    requires key in media
    ensures Restricted(media, keys + [key]) == Restricted(media, keys)[key := media[key]]
  {
  }

  // The entries of these keys can be put, with the bytes of the media.
  predicate HasMedia(keys: seq<string>, media: map<string, Stored>, s: Setting) {
    forall i | 0 <= i < |keys| ::
      && keys[i] in media && SourceOf(keys[i], s) == Some(media[keys[i]].content)
      && s.takes(keys[i], media[keys[i]].contentType)
  }

  lemma {:induction false} PutAllPuts(target: map<string, Stored>, keys: seq<string>, media: map<string, Stored>, s: Setting)
    requires HasMedia(keys, media, s)
    ensures Restorable(EntriesOf(keys, media), s)
    ensures PutAll(target, EntriesOf(keys, media), s) == target + Restricted(media, keys)
  {
    if keys == [] {
      assert target + Restricted(media, keys) == target;
    } else {
      var front, last := keys[..|keys| - 1], keys[|keys| - 1];
      PutAllPuts(target, front, media, s);
      PutOneMore(target, front, last, media, s);
      OneMoreRestricted(media, front, last);
      MergeUpdate(target, Restricted(media, front), last, media[last]);
      assert keys == front + [last];
    }
  }

  lemma MergeUpdate(a: map<string, Stored>, b: map<string, Stored>, key: string, value: Stored)
    ensures (a + b)[key := value] == a + b[key := value]
  {
  }

  lemma PutOneMore(target: map<string, Stored>, keys: seq<string>, key: string, media: map<string, Stored>, s: Setting)
    requires HasMedia(keys, media, s) && key in media
    requires SourceOf(key, s) == Some(media[key].content) && s.takes(key, media[key].contentType)
    requires Restorable(EntriesOf(keys, media), s)
    ensures forall i | 0 <= i < |keys + [key]| :: (keys + [key])[i] in media
    ensures Restorable(EntriesOf(keys + [key], media), s)
    ensures PutAll(target, EntriesOf(keys + [key], media), s) == PutAll(target, EntriesOf(keys, media), s)[key := media[key]]
  {
    var entries := EntriesOf(keys + [key], media);
    assert entries[..|keys|] == EntriesOf(keys, media) && entries[|keys|] == MediaEntry(Text(key), Some(media[key].contentType));
    PutStep(target, entries, |keys|, s);
    assert entries[..|keys| + 1] == entries;
  }

  lemma BuiltIsStageable(archive: seq<Member>, dump: Content, keys: seq<string>, media: map<string, Stored>, info: Info)
    requires Buildable(keys, media) && Built(archive, dump, keys, media, info)
    requires CanonicalKeys(keys) && forall w | w in info.workspaces :: w.kind != ""
    ensures Stageable(archive) && FilesOf(archive) == Contents(archive)
  {
    BuiltIsAccepted(archive, dump, keys, media, info);
    BuiltIsTidy(archive, dump, keys, media, info);
    TidyFiles(archive);
    MediaIsNoFile(keys);
  }

  lemma MediaIsNoFile(keys: seq<string>)
    requires CanonicalKeys(keys)
    ensures MEDIA !in {DATABASE, MANIFEST, CHECKSUMS} + MediaPaths(keys)
  {
    forall i | 0 <= i < |keys| ensures |MediaPath(keys[i])| > |MEDIA| {
      MediaPathIsName(keys[i], keys[i]);
    }
    assert |DATABASE| > |MEDIA| && |MANIFEST| > |MEDIA| && |CHECKSUMS| > |MEDIA|;
  }

  lemma CanonicalIsRelative(key: string)
    requires Canonical(key)
    ensures !Absolute(key)
  {
    assert Real(Segments(key)[0]);
  }

  // Each medium of such a backup is read from the archive.
  lemma CanonicalPuttable(c: map<string, Content>, keys: seq<string>, media: map<string, Stored>, host: map<string, Content>,
                          takes: (string, Value) -> bool, i: nat)
    requires LastWritten(c, keys, media) && CanonicalKeys(keys) && i < |keys|
    ensures SourceOf(keys[i], Setting(c, host, takes)) == Some(media[keys[i]].content)
    ensures Puttable(EntriesOf(keys, media)[i], Setting(c, host, takes)) <==> takes(keys[i], media[keys[i]].contentType)
  {
    CanonicalStored(c, keys, media, i);
    CanonicalIsRelative(keys[i]);
  }

  lemma CanonicalRestorable(c: map<string, Content>, keys: seq<string>, media: map<string, Stored>, host: map<string, Content>,
                            takes: (string, Value) -> bool)
    requires LastWritten(c, keys, media) && CanonicalKeys(keys)
    ensures Restorable(EntriesOf(keys, media), Setting(c, host, takes)) <==> forall i | 0 <= i < |keys| :: takes(keys[i], media[keys[i]].contentType)
    ensures Restorable(EntriesOf(keys, media), Setting(c, host, takes)) ==> HasMedia(keys, media, Setting(c, host, takes))
  {
    var entries, s := EntriesOf(keys, media), Setting(c, host, takes);
    forall i | 0 <= i < |keys|
      ensures SourceOf(keys[i], s) == Some(media[keys[i]].content)
      ensures Puttable(entries[i], s) <==> takes(keys[i], media[keys[i]].contentType)
    {
      CanonicalPuttable(c, keys, media, host, takes, i);
    }
    assert Restorable(entries, s) <==> forall i | 0 <= i < |keys| :: Puttable(entries[i], s);
  }

  // A backup of canonical keys that do not nest is restored, on whichever machine,
  // up to the first key that the storage does not take; when it takes them all,
  // the same bytes and media are back and what else the target had is kept.
  lemma BackupRestores(archive: seq<Member>, dump: Content, keys: seq<string>, media: map<string, Stored>, info: Info,
                       host: map<string, Content>, takes: (string, Value) -> bool, target: map<string, Stored>)
    requires Buildable(keys, media) && Built(archive, dump, keys, media, info)
    requires CanonicalKeys(keys) && forall w | w in info.workspaces :: w.kind != ""
    ensures Stageable(archive)
    ensures Contents(archive)[DATABASE] == dump && ManifestOf(archive).schemaRevision == Some(Text(info.schemaRevision))
    ensures
      var entries, s := ItemsOf(ManifestOf(archive).media), Setting(FilesOf(archive), host, takes);
      && (Restorable(entries, s) <==> forall i | 0 <= i < |keys| :: takes(keys[i], media[keys[i]].contentType))
      && (Restorable(entries, s) ==> PutAll(target, entries, s) == target + Restricted(media, keys))
  {
    BuiltIsStageable(archive, dump, keys, media, info);
    CanonicalRestorable(Contents(archive), keys, media, host, takes);
    var s := Setting(Contents(archive), host, takes);
    if Restorable(EntriesOf(keys, media), s) {
      PutAllPuts(target, keys, media, s);
    }
  }

  // So whatever restoring such a backup leaves: it runs to its end exactly when
  // the storage takes every key, and then the database is the one that was dumped
  // and the media are those that were stored.
  lemma RestoreUndoesBackup(archive: seq<Member>, dump: Content, keys: seq<string>, media: map<string, Stored>, info: Info,
                            host: map<string, Content>, takes: (string, Value) -> bool,
                            database: Content, before: map<string, Stored>, after: map<string, Stored>, ok: bool)
    requires Buildable(keys, media) && Built(archive, dump, keys, media, info)
    requires CanonicalKeys(keys) && forall w | w in info.workspaces :: w.kind != ""
    requires Accepted(archive) && Restored(archive, host, takes, database, before, after, ok)
    ensures database == dump
    ensures ok <==> forall i | 0 <= i < |keys| :: takes(keys[i], media[keys[i]].contentType)
    ensures ok ==> forall key | key in keys :: key in after && after[key] == media[key]
    ensures ok ==> forall key | key !in keys :: (key in after <==> key in before) && (key in before ==> after[key] == before[key])
  {
    BackupRestores(archive, dump, keys, media, info, host, takes, before);
    var entries, s := ItemsOf(ManifestOf(archive).media), Setting(FilesOf(archive), host, takes);
    ReachAll(entries, s);
    if ok {
      assert after == before + Restricted(media, keys);
    }
  }

  // Canonical keys clash exactly when one is a directory of the other.
  lemma ClashIsNesting(a: string, b: string)
    requires Canonical(a) && Canonical(b)
    ensures Clash(a, b) <==> a in Ancestors(b) || b in Ancestors(a)
  {
    MediaPathIsName(a, a);
    MediaPathIsName(b, b);
    MediaNesting(a, b);
    MediaNesting(b, a);
  }
}
