/** Portable backups as lists of archive members: what an accepted artifact is,
    what the builder produces, and how the two fit together.  A digest stands for
    the bytes it was computed from. */
module BackupModel {
  import opened Common
  import opened Paths

  const MANIFEST := "manifest.json"
  const CHECKSUMS := "checksums.json"
  const DATABASE := "database/postgres.dump"
  const FORMAT := "wherehouse-portable-backup"
  const FORMAT_VERSION := 1

  // The bytes of a file, told apart by what a JSON reader makes of them; layout
  // distinguishes different bytes with the same meaning, and plain says that they
  // also read as text: UTF-8 without a byte order mark.
  datatype Content =
    | Raw(bytes: seq<bv8>)
    | OtherJson(text: seq<bv8>) // JSON, but not an object
    | Object(fields: Fields, layout: seq<bv8>, plain: bool)

  // Of(c) is the digest of c; Unmatched is a text that is no digest of anything.
  datatype Digest = Of(content: Content) | Unmatched(hex: string)

  // A value of the checksum index, with or without the sha256: prefix.
  datatype Checksum = Sha256(digest: Digest) | Malformed

  // A JSON value where a string is meant; shown is how another one is formatted.
  datatype Value = Text(text: string) | NotText(shown: string)

  function Shown(value: Value): string {
    match value
    case Text(text) => text
    case NotText(shown) => shown
  }

  datatype MediaEntry = MediaEntry(key: Value, contentType: Option<Value>)

  datatype WorkspaceEntry = WorkspaceEntry(id: string, kind: string)

  datatype Encryption = Unstated | NotAnObject | Stated(enabled: bool)

  datatype Listed<T> = Absent | Unreadable | Items(items: seq<T>)

  // The fields of an object that the manifest or the index may have.
  datatype Fields = Fields(
    format: Option<string>,
    formatVersion: Option<int>,
    backupId: Option<Value>,
    createdAt: Option<nat>, // None when absent or not a date
    schemaRevision: Option<Value>,
    workspaces: Listed<WorkspaceEntry>,
    media: Listed<MediaEntry>,
    encryption: Encryption,
    algorithm: Option<string>,
    files: Option<map<string, Checksum>>)

  datatype Member = Member(name: string, content: Content)

  datatype Stored = Stored(content: Content, contentType: Value)

  datatype Info = Info(backupId: string, createdAt: nat, schemaRevision: string, workspaces: seq<WorkspaceEntry>)

  datatype Verified = Verified(
    backupId: Value,
    createdAt: nat,
    schemaRevision: Value,
    mediaCount: nat,
    encrypted: bool,
    workspaces: seq<WorkspaceEntry>)

  datatype Error = Integrity | Compatibility | Unexpected | FileSystem | Unconfirmed | SchemaMismatch | Incomplete

  // --- archives -----------------------------------------------------------------------

  function Contents(archive: seq<Member>): (c: map<string, Content>)
    ensures forall name :: name in c <==> exists i :: 0 <= i < |archive| && archive[i].name == name
  {
    if archive == [] then map[] else
      var last := archive[|archive| - 1];
      var before := Contents(archive[..|archive| - 1]);
      assert forall i | 0 <= i < |archive| - 1 :: archive[..|archive| - 1][i] == archive[i];
      assert forall name | name in before :: exists i :: 0 <= i < |archive| && archive[i].name == name;
      before[last.name := last.content]
  }

  ghost predicate DistinctNames(archive: seq<Member>) {
    forall i, j | 0 <= i < j < |archive| :: archive[i].name != archive[j].name
  }

  lemma {:induction false} ContentsAt(archive: seq<Member>, i: nat)
    requires DistinctNames(archive) && i < |archive|
    ensures Contents(archive)[archive[i].name] == archive[i].content
  {
    if i < |archive| - 1 {
      ContentsAt(archive[..|archive| - 1], i);
    }
  }

  function ItemsOf<T>(listed: Listed<T>): seq<T> {
    if listed.Items? then listed.items else []
  }

  // --- acceptance ---------------------------------------------------------------------

  predicate Parses(content: Content) {
    !content.Raw?
  }

  predicate AllSafe(archive: seq<Member>) {
    forall i | 0 <= i < |archive| :: SafeMember(archive[i].name)
  }

  ghost predicate Packed(archive: seq<Member>) {
    && AllSafe(archive)
    && DistinctNames(archive)
    && {MANIFEST, CHECKSUMS, DATABASE} <= Contents(archive).Keys
    && Parses(Contents(archive)[MANIFEST]) && Parses(Contents(archive)[CHECKSUMS])
  }

  predicate KnownManifest(manifest: Content) {
    manifest.Object? && manifest.fields.format == Some(FORMAT) && manifest.fields.formatVersion == Some(FORMAT_VERSION)
  }

  predicate KnownIndex(index: Content) {
    index.Object? && index.fields.algorithm == Some("sha256")
  }

  function Declared(entries: seq<MediaEntry>): set<string> {
    {DATABASE, MANIFEST} + set i | 0 <= i < |entries| :: MediaName(Shown(entries[i].key))
  }

  predicate WorkspacesReadable(workspaces: Listed<WorkspaceEntry>) {
    !workspaces.Unreadable? && forall w | w in ItemsOf(workspaces) :: w.kind != ""
  }

  predicate Complete(fields: Fields) {
    fields.createdAt.Some? && WorkspacesReadable(fields.workspaces) && fields.backupId.Some? && fields.schemaRevision.Some?
  }

  // The index has every member but itself, with its digest, and the manifest
  // declares the same files.
  ghost predicate IndexFits(c: map<string, Content>, manifest: Fields, files: map<string, Checksum>) {
    && (forall name | name in files :: name in c && files[name] == Sha256(Of(c[name])))
    && !manifest.media.Unreadable?
    && files.Keys == Declared(ItemsOf(manifest.media))
    && c.Keys == Declared(ItemsOf(manifest.media)) + {CHECKSUMS}
  }

  // Index, manifest and members agree, and the manifest has what a summary needs.
  ghost predicate AgreeingFiles(c: map<string, Content>)
    requires MANIFEST in c && CHECKSUMS in c
  {
    && KnownManifest(c[MANIFEST]) && KnownIndex(c[CHECKSUMS])
    && c[CHECKSUMS].fields.files.Some?
    && IndexFits(c, c[MANIFEST].fields, c[CHECKSUMS].fields.files.value)
    && Complete(c[MANIFEST].fields)
  }

  ghost predicate AcceptedFiles(c: map<string, Content>)
    requires MANIFEST in c && CHECKSUMS in c
  {
    AgreeingFiles(c) && !c[MANIFEST].fields.encryption.NotAnObject?
  }

  ghost predicate Accepted(archive: seq<Member>) {
    Packed(archive) && AcceptedFiles(Contents(archive))
  }

  ghost function ManifestOf(archive: seq<Member>): Fields
    requires Accepted(archive)
  {
    Contents(archive)[MANIFEST].fields
  }

  function Summary(manifest: Fields): Verified
    requires Complete(manifest)
  {
    Verified(manifest.backupId.value, manifest.createdAt.value, manifest.schemaRevision.value, |ItemsOf(manifest.media)|,
             manifest.encryption == Stated(true), ItemsOf(manifest.workspaces))
  }

  lemma IndexDetermines(c: map<string, Content>, d: map<string, Content>, m: Fields, n: Fields, files: map<string, Checksum>)
    requires IndexFits(c, m, files) && IndexFits(d, n, files) && CHECKSUMS in c && CHECKSUMS in d && c[CHECKSUMS] == d[CHECKSUMS]
    ensures c == d
  {
  }

  // Two accepted artifacts with the same checksum index have the same members.
  lemma SameIndexSameMembers(a: seq<Member>, b: seq<Member>)
    requires Accepted(a) && Accepted(b)
    requires Contents(a)[CHECKSUMS] == Contents(b)[CHECKSUMS]
    ensures Contents(a) == Contents(b)
  {
    IndexDetermines(Contents(a), Contents(b), ManifestOf(a), ManifestOf(b), Contents(a)[CHECKSUMS].fields.files.value);
  }

  // An accepted artifact has no member that its index does not vouch for.
  lemma IndexCoversMembers(a: seq<Member>, i: nat)
    requires Accepted(a) && i < |a| && a[i].name != CHECKSUMS
    ensures var files := Contents(a)[CHECKSUMS].fields.files.value;
            a[i].name in files && files[a[i].name] == Sha256(Of(a[i].content))
  {
    ContentsAt(a, i);
    assert a[i].name in Contents(a).Keys;
  }

  // --- what the builder makes -----------------------------------------------------------

  function EntriesOf(keys: seq<string>, media: map<string, Stored>): (entries: seq<MediaEntry>)
    requires forall i | 0 <= i < |keys| :: keys[i] in media
    ensures |entries| == |keys|
  {
    seq(|keys|, i requires 0 <= i < |keys| => MediaEntry(Text(keys[i]), Some(media[keys[i]].contentType)))
  }

  function NewManifest(info: Info, entries: seq<MediaEntry>): Content {
    Object(Fields(Some(FORMAT), Some(FORMAT_VERSION), Some(Text(info.backupId)), Some(info.createdAt), Some(Text(info.schemaRevision)),
                  Items(info.workspaces), Items(entries), Stated(false), None, None), [], true)
  }

  function NewIndex(files: map<string, Content>): Content {
    Object(Fields(None, None, None, None, None, Absent, Absent, Unstated, Some("sha256"),
                  Some(map name | name in files :: Sha256(Of(files[name])))), [], true)
  }

  // One path is a directory on the way to the other.
  predicate Nested(a: string, b: string) {
    a in Ancestors(b) || b in Ancestors(a)
  }

  // Two keys whose files get in each other's way.
  predicate Clash(a: string, b: string) {
    Nested(MediaPath(a), MediaPath(b))
  }

  ghost predicate BuildableUpTo(keys: seq<string>, media: map<string, Stored>, n: nat)
    requires n <= |keys|
  {
    && (forall i | 0 <= i < n :: SafeMember(keys[i]) && keys[i] in media)
    && (forall i, j | 0 <= i < j < n :: !Clash(keys[i], keys[j]))
  }

  ghost predicate Buildable(keys: seq<string>, media: map<string, Stored>) {
    BuildableUpTo(keys, media, |keys|)
  }

  // No later key has the same path.
  predicate NoLater(keys: seq<string>, i: nat)
    requires i < |keys|
  {
    forall j | i < j < |keys| :: MediaPath(keys[j]) != MediaPath(keys[i])
  }

  // The last of several keys with one path decides the content of the file.
  ghost predicate LastWritten(c: map<string, Content>, keys: seq<string>, media: map<string, Stored>) {
    && (forall i | 0 <= i < |keys| :: keys[i] in media && MediaPath(keys[i]) in c)
    && (forall i | 0 <= i < |keys| && NoLater(keys, i) :: c[MediaPath(keys[i])] == media[keys[i]].content)
  }

  function MediaPaths(keys: seq<string>): set<string> {
    set i | 0 <= i < |keys| :: MediaPath(keys[i])
  }

  ghost predicate BuiltFiles(c: map<string, Content>, dump: Content, keys: seq<string>, media: map<string, Stored>, info: Info) {
    && c.Keys == {DATABASE, MANIFEST, CHECKSUMS} + MediaPaths(keys)
    && LastWritten(c, keys, media)
    && c[DATABASE] == dump && c[MANIFEST] == NewManifest(info, EntriesOf(keys, media)) && c[CHECKSUMS] == NewIndex(c - {CHECKSUMS})
  }

  ghost predicate Built(archive: seq<Member>, dump: Content, keys: seq<string>, media: map<string, Stored>, info: Info) {
    DistinctNames(archive) && BuiltFiles(Contents(archive), dump, keys, media, info)
  }

  ghost predicate CanonicalKeys(keys: seq<string>) {
    forall i | 0 <= i < |keys| :: Canonical(keys[i])
  }

  // --- names ---------------------------------------------------------------------------

  lemma TwoSegments(name: string, dir: string, file: string)
    requires name == dir + "/" + file && '/' !in dir && '/' !in file
    requires Real(dir) && Real(file) && dir != ".." && file != ".."
    ensures SafeMember(name) && Canonical(name)
  {
    SegmentsOne(file);
    SegmentsPrefix(dir, file);
  }

  lemma TopSegments(name: string)
    requires '/' !in name && Real(name) && name != ".."
    ensures SafeMember(name) && Canonical(name) && Ancestors(name) == {}
  {
    SegmentsOne(name);
  }

  lemma DatabaseAncestors()
    ensures Ancestors(DATABASE) == {"database"}
  {
    var a := Ancestors(DATABASE);
    assert DATABASE[8] == '/' && DATABASE[..8] == "database";
  }

  // Everything of the media lies under media.
  predicate UnderMedia(name: string) {
    MEDIA <= name
  }

  lemma MediaPathUnder(key: string)
    ensures UnderMedia(MediaPath(key)) && UnderMedia(MediaName(key))
  {
  }

  lemma AncestorUnder(path: string, a: string)
    requires UnderMedia(path) && a in Ancestors(path)
    ensures UnderMedia(a)
  {
  }

  lemma UnderMediaIsNotFixed(name: string)
    requires UnderMedia(name)
    ensures name != DATABASE && name != MANIFEST && name != CHECKSUMS && name != "database"
  {
    assert name[2] == MEDIA[2];
    assert MEDIA[2] == 'd' && DATABASE[2] == 't' && MANIFEST[2] == 'n' && CHECKSUMS[2] == 'e';
  }

  // Media files never get in the way of the other three.
  lemma MediaPathApart(key: string)
    ensures MediaPath(key) !in {DATABASE, MANIFEST, CHECKSUMS, "database"}
    ensures Ancestors(MediaPath(key)) !! {DATABASE, MANIFEST, CHECKSUMS, "database"}
  {
    MediaPathUnder(key);
    UnderMediaIsNotFixed(MediaPath(key));
    forall a | a in Ancestors(MediaPath(key)) ensures a !in {DATABASE, MANIFEST, CHECKSUMS, "database"} {
      AncestorUnder(MediaPath(key), a);
      UnderMediaIsNotFixed(a);
    }
  }

  lemma MediaPathSafe(key: string)
    requires SafeMember(key)
    ensures SafeMember(MediaPath(key))
  {
    MediaPathSegments(key);
    MediaPathUnder(key);
    assert MediaPath(key)[0] == MEDIA[0];
    assert forall i | 0 <= i < |Parts(key)| :: Parts(key)[i] in Segments(key);
  }

  // --- when the built artifact declares its own files -------------------------------------

  lemma CanonicalDeclares(keys: seq<string>, entries: seq<MediaEntry>)
    requires |entries| == |keys| && forall i | 0 <= i < |keys| :: entries[i].key == Text(keys[i])
    requires CanonicalKeys(keys)
    ensures Declared(entries) == {DATABASE, MANIFEST} + MediaPaths(keys)
  {
    forall i | 0 <= i < |keys| ensures MediaName(Shown(entries[i].key)) == MediaPath(keys[i]) {
      MediaPathIsName(keys[i], keys[i]);
    }
    assert (set i | 0 <= i < |entries| :: MediaName(Shown(entries[i].key))) == MediaPaths(keys);
  }

  // A declared name at which a medium was written is that of a canonical key.
  lemma WrittenIsCanonical(keys: seq<string>, key: string)
    requires MediaName(key) in {DATABASE, MANIFEST} + MediaPaths(keys)
    ensures Canonical(key)
  {
    MediaPathUnder(key);
    UnderMediaIsNotFixed(MediaName(key));
    var j :| 0 <= j < |keys| && MediaPath(keys[j]) == MediaName(key);
    MediaPathIsName(key, keys[j]);
  }

  lemma DeclaresCanonical(keys: seq<string>, entries: seq<MediaEntry>)
    requires |entries| == |keys| && forall i | 0 <= i < |keys| :: entries[i].key == Text(keys[i])
    requires Declared(entries) == {DATABASE, MANIFEST} + MediaPaths(keys)
    ensures CanonicalKeys(keys)
  {
    forall i | 0 <= i < |keys| ensures Canonical(keys[i]) {
      assert MediaName(Shown(entries[i].key)) in Declared(entries);
      WrittenIsCanonical(keys, keys[i]);
    }
  }

  // The manifest declares the files that were written exactly for canonical keys.
  lemma DeclaresExactlyCanonical(keys: seq<string>, entries: seq<MediaEntry>)
    requires |entries| == |keys| && forall i | 0 <= i < |keys| :: entries[i].key == Text(keys[i])
    ensures Declared(entries) == {DATABASE, MANIFEST} + MediaPaths(keys) <==> CanonicalKeys(keys)
  {
    if CanonicalKeys(keys) {
      CanonicalDeclares(keys, entries);
    }
    if Declared(entries) == {DATABASE, MANIFEST} + MediaPaths(keys) {
      DeclaresCanonical(keys, entries);
    }
  }
}
