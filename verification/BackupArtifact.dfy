/** Building a backup artifact from a database dump and the stored media.  A
    directory on disk is the map of its files and the set of its subdirectories. */
module BackupArtifact {
  import opened Common
  import opened Paths
  import opened BackupModel

  datatype Tree = Tree(files: map<string, Content>, dirs: set<string>)

  // The parent directories can be made and the path is no directory.
  predicate CanWrite(t: Tree, path: string) {
    path !in t.dirs && Ancestors(path) !! t.files.Keys
  }

  function Put(t: Tree, path: string, content: Content): Tree {
    Tree(t.files[path := content], t.dirs + Ancestors(path))
  }

  // --- building -------------------------------------------------------------------------

  predicate LastAt(paths: seq<string>, i: nat)
    requires i < |paths|
  {
    forall j | i < j < |paths| :: paths[j] != paths[i]
  }

  function Elements(paths: seq<string>): set<string> {
    set i | 0 <= i < |paths| :: paths[i]
  }

  function DirsOn(paths: seq<string>): set<string> {
    set j, d | 0 <= j < |paths| && d in Ancestors(paths[j]) :: d
  }

  // The last file written at a path is there.
  ghost predicate LastOf(files: map<string, Content>, paths: seq<string>, contents: seq<Content>)
    requires |paths| == |contents|
  {
    forall i | 0 <= i < |paths| :: paths[i] in files && (LastAt(paths, i) ==> files[paths[i]] == contents[i])
  }

  // The workspace directory after the dump and these files were written.
  ghost predicate Placed(t: Tree, dump: Content, paths: seq<string>, contents: seq<Content>)
    requires |paths| == |contents|
  {
    && t.files.Keys == {DATABASE} + Elements(paths) && t.dirs == {"database"} + DirsOn(paths)
    && t.files[DATABASE] == dump && LastOf(t.files, paths, contents)
  }

  // The path has nothing to do with where the dump lies.
  predicate Apart(path: string) {
    path !in {DATABASE, "database"} && DATABASE !in Ancestors(path)
  }

  lemma WritableUnlessNested(t: Tree, dump: Content, paths: seq<string>, contents: seq<Content>, path: string)
    requires |paths| == |contents| && Placed(t, dump, paths, contents) && Apart(path)
    ensures CanWrite(t, path) <==> forall j | 0 <= j < |paths| :: !Nested(paths[j], path)
  {
    assert path in t.dirs <==> exists j :: 0 <= j < |paths| && path in Ancestors(paths[j]);
    assert forall j | 0 <= j < |paths| :: paths[j] in t.files;
  }

  lemma OneMorePath(paths: seq<string>, path: string)
    ensures Elements(paths + [path]) == Elements(paths) + {path}
    ensures DirsOn(paths + [path]) == DirsOn(paths) + Ancestors(path)
  {
    var all := paths + [path];
    assert all[|paths|] == path;
    forall p | p in Elements(paths) ensures p in Elements(all) {
      var j :| 0 <= j < |paths| && paths[j] == p;
      assert all[j] == p;
    }
    forall d | d in DirsOn(paths) ensures d in DirsOn(all) {
      var j :| 0 <= j < |paths| && d in Ancestors(paths[j]);
      assert all[j] == paths[j];
    }
  }

  lemma OneMoreWritten(files: map<string, Content>, paths: seq<string>, contents: seq<Content>, path: string, content: Content)
    requires |paths| == |contents| && LastOf(files, paths, contents)
    ensures LastOf(files[path := content], paths + [path], contents + [content])
  {
    var all := paths + [path];
    assert all[|paths|] == path;
    forall i | 0 <= i < |paths| && LastAt(all, i) ensures paths[i] != path && LastAt(paths, i) {
      assert all[|paths|] != all[i];
      assert forall j | i < j < |paths| :: all[j] == paths[j];
    }
  }

  lemma PutNext(t: Tree, dump: Content, paths: seq<string>, contents: seq<Content>, path: string, content: Content)
    requires |paths| == |contents| && Placed(t, dump, paths, contents) && Apart(path)
    ensures Placed(Put(t, path, content), dump, paths + [path], contents + [content])
  {
    OneMorePath(paths, path);
    OneMoreWritten(t.files, paths, contents, path, content);
  }

  lemma LastWrittenFrame(c: map<string, Content>, d: map<string, Content>, keys: seq<string>, media: map<string, Stored>)
    requires LastWritten(c, keys, media)
    requires forall i | 0 <= i < |keys| :: MediaPath(keys[i]) in d && d[MediaPath(keys[i])] == c[MediaPath(keys[i])]
    ensures LastWritten(d, keys, media)
  {
  }

  // The paths and contents that belong to the first n keys.
  ghost predicate Matches(paths: seq<string>, contents: seq<Content>, keys: seq<string>, media: map<string, Stored>, n: nat)
    requires n <= |keys|
  {
    && |paths| == |contents| == n
    && forall j | 0 <= j < n :: keys[j] in media && paths[j] == MediaPath(keys[j]) && contents[j] == media[keys[j]].content
  }

  lemma MatchesMedia(files: map<string, Content>, paths: seq<string>, contents: seq<Content>, keys: seq<string>, media: map<string, Stored>)
    requires Matches(paths, contents, keys, media, |keys|) && LastOf(files, paths, contents)
    ensures Elements(paths) == MediaPaths(keys) && LastWritten(files, keys, media)
  {
    forall i | 0 <= i < |keys| ensures paths[i] in MediaPaths(keys) && MediaPath(keys[i]) in Elements(paths) {
      assert MediaPath(keys[i]) == paths[i];
    }
    forall i | 0 <= i < |keys| && NoLater(keys, i) ensures LastAt(paths, i) {
      assert forall j | i < j < |keys| :: MediaPath(keys[j]) == paths[j];
    }
  }

  lemma EmptyPlaced(dump: Content)
    ensures Placed(Tree(map[DATABASE := dump], {"database"}), dump, [], [])
  {
  }

  // The next key can be added exactly when it is usable and its path is free.
  lemma BuildableStep(paths: seq<string>, contents: seq<Content>, keys: seq<string>, media: map<string, Stored>, i: nat)
    requires i < |keys| && Matches(paths, contents, keys, media, i) && BuildableUpTo(keys, media, i)
    ensures BuildableUpTo(keys, media, i + 1) <==>
              SafeMember(keys[i]) && keys[i] in media && forall j | 0 <= j < |paths| :: !Nested(paths[j], MediaPath(keys[i]))
    ensures !BuildableUpTo(keys, media, i + 1) ==> !Buildable(keys, media)
  {
    assert forall j | 0 <= j < i :: Clash(keys[j], keys[i]) == Nested(paths[j], MediaPath(keys[i]));
  }

  lemma MatchesNext(paths: seq<string>, contents: seq<Content>, keys: seq<string>, media: map<string, Stored>, i: nat)
    requires i < |keys| && Matches(paths, contents, keys, media, i) && keys[i] in media
    ensures Matches(paths + [MediaPath(keys[i])], contents + [media[keys[i]].content], keys, media, i + 1)
  {
  }

  ghost predicate Describes(entries: seq<MediaEntry>, keys: seq<string>, media: map<string, Stored>, n: nat)
    requires n <= |keys| && forall j | 0 <= j < n :: keys[j] in media
  {
    |entries| == n && forall j | 0 <= j < n :: entries[j] == MediaEntry(Text(keys[j]), Some(media[keys[j]].contentType))
  }

  lemma DescribesNext(entries: seq<MediaEntry>, keys: seq<string>, media: map<string, Stored>, i: nat)
    requires i < |keys| && forall j | 0 <= j <= i :: keys[j] in media
    requires Describes(entries, keys, media, i)
    ensures Describes(entries + [MediaEntry(Text(keys[i]), Some(media[keys[i]].contentType))], keys, media, i + 1)
  {
  }

  lemma DescribesAll(entries: seq<MediaEntry>, keys: seq<string>, media: map<string, Stored>)
    requires (forall j | 0 <= j < |keys| :: keys[j] in media) && Describes(entries, keys, media, |keys|)
    ensures entries == EntriesOf(keys, media)
  {
  }

  // Copies the media next to the dump; fails on the first key that is unsafe,
  // missing, or in the way of an earlier one.
  method CopyMedia(dump: Content, keys: seq<string>, media: map<string, Stored>) returns (r: Result<(Tree, seq<MediaEntry>), Error>)
    ensures r.Ok? <==> Buildable(keys, media)
    ensures r.Ok? ==>
              var files := r.value.0.files;
              && files.Keys == {DATABASE} + MediaPaths(keys) && files[DATABASE] == dump && LastWritten(files, keys, media)
              && r.value.1 == EntriesOf(keys, media)
  {
    var tree := Tree(map[DATABASE := dump], {"database"});
    var entries: seq<MediaEntry> := [];
    ghost var paths: seq<string>, contents: seq<Content> := [], [];
    EmptyPlaced(dump);
    for i := 0 to |keys|
      invariant BuildableUpTo(keys, media, i)
      invariant Matches(paths, contents, keys, media, i) && Placed(tree, dump, paths, contents)
      invariant Describes(entries, keys, media, i)
    {
      var key := keys[i];
      BuildableStep(paths, contents, keys, media, i);
      if !SafeMember(key) || key !in media {
        return Err(Integrity);
      }
      var path := MediaPath(key);
      MediaPathApart(key);
      WritableUnlessNested(tree, dump, paths, contents, path);
      if !CanWrite(tree, path) {
        return Err(FileSystem);
      }
      PutNext(tree, dump, paths, contents, path, media[key].content);
      MatchesNext(paths, contents, keys, media, i);
      DescribesNext(entries, keys, media, i);
      tree := Put(tree, path, media[key].content);
      paths, contents := paths + [path], contents + [media[key].content];
      entries := entries + [MediaEntry(Text(key), Some(media[key].contentType))];
    }
    MatchesMedia(tree.files, paths, contents, keys, media);
    DescribesAll(entries, keys, media);
    return Ok((tree, entries));
  }

  method ChecksumsOf(files: map<string, Content>, paths: seq<string>) returns (index: Content)
    requires forall name :: name in paths <==> name in files
    ensures index == NewIndex(files)
  {
    var checksums: map<string, Checksum> := map[];
    for i := 0 to |paths|
      invariant forall name :: name in checksums <==> name in paths[..i]
      invariant forall name | name in checksums :: checksums[name] == Sha256(Of(files[name]))
    {
      assert paths[..i + 1] == paths[..i] + [paths[i]];
      checksums := checksums[paths[i] := Sha256(Of(files[paths[i]]))];
    }
    assert paths[..|paths|] == paths;
    assert checksums == map name | name in files :: Sha256(Of(files[name]));
    index := Object(Fields(None, None, None, None, None, Absent, Absent, Unstated, Some("sha256"), Some(checksums)), [], true);
  }

  lemma AddMember(archive: seq<Member>, m: Member)
    requires DistinctNames(archive) && m.name !in Contents(archive)
    ensures Contents(archive + [m]) == Contents(archive)[m.name := m.content] && DistinctNames(archive + [m])
  {
  }

  // Zips the files; the order of the members does not matter.
  method ZipFiles(files: map<string, Content>) returns (archive: seq<Member>)
    ensures DistinctNames(archive) && Contents(archive) == files
  {
    archive := [];
    var rest := files.Keys;
    while rest != {}
      invariant rest <= files.Keys && DistinctNames(archive)
      invariant Contents(archive) == files - rest
    {
      var name :| name in rest;
      AddMember(archive, Member(name, files[name]));
      OneMoreFile(files, rest, name);
      archive := archive + [Member(name, files[name])];
      rest := rest - {name};
    }
    assert files - {} == files;
  }

  lemma OneMoreFile(files: map<string, Content>, rest: set<string>, name: string)
    requires name in rest && rest <= files.Keys
    ensures (files - rest)[name := files[name]] == files - (rest - {name})
  {
  }

  // The checksums of the dump, the manifest and the media, path by path.
  method IndexTree(files: map<string, Content>, entries: seq<MediaEntry>, ghost keys: seq<string>) returns (index: Content)
    requires files.Keys == {DATABASE, MANIFEST} + MediaPaths(keys)
    requires |entries| == |keys| && forall i | 0 <= i < |keys| :: entries[i].key == Text(keys[i])
    ensures index == NewIndex(files)
  {
    var media := seq(|entries|, i requires 0 <= i < |entries| => MediaPath(Shown(entries[i].key)));
    ListsMedia(media, keys);
    var paths := [DATABASE, MANIFEST] + media;
    assert forall name :: name in paths <==> name in {DATABASE, MANIFEST} || name in media;
    index := ChecksumsOf(files, paths);
  }

  lemma ListsMedia(paths: seq<string>, keys: seq<string>)
    requires |paths| == |keys| && forall i | 0 <= i < |keys| :: paths[i] == MediaPath(keys[i])
    ensures forall name :: name in paths <==> name in MediaPaths(keys)
  {
    forall name | name in MediaPaths(keys) ensures name in paths {
      var i :| 0 <= i < |keys| && MediaPath(keys[i]) == name;
      assert paths[i] == name;
    }
  }

  lemma BuiltFromTree(files: map<string, Content>, dump: Content, keys: seq<string>, media: map<string, Stored>, info: Info)
    requires files.Keys == {DATABASE} + MediaPaths(keys) && files[DATABASE] == dump && LastWritten(files, keys, media)
    ensures
      var described := files[MANIFEST := NewManifest(info, EntriesOf(keys, media))];
      BuiltFiles(described[CHECKSUMS := NewIndex(described)], dump, keys, media, info)
  {
    forall i | 0 <= i < |keys| ensures MediaPath(keys[i]) !in {DATABASE, MANIFEST, CHECKSUMS} {
      MediaPathApart(keys[i]);
    }
    var described := files[MANIFEST := NewManifest(info, EntriesOf(keys, media))];
    var all := described[CHECKSUMS := NewIndex(described)];
    assert all - {CHECKSUMS} == described;
    LastWrittenFrame(files, all, keys, media);
  }

  // The artifact of a database dump and the media under the given keys.
  method CreateArtifact(dump: Content, keys: seq<string>, media: map<string, Stored>, info: Info) returns (r: Result<seq<Member>, Error>)
    ensures r.Ok? <==> Buildable(keys, media)
    ensures r.Ok? ==> Built(r.value, dump, keys, media, info)
    ensures r.Ok? ==> forall i | 0 <= i < |keys| :: StaysInside(keys[i]) && keys[i] in media
  {
    forall i | 0 <= i < |keys| ensures SafeMember(keys[i]) <==> StaysInside(keys[i]) {
      SafeMeansInside(keys[i]);
    }
    var copied := CopyMedia(dump, keys, media);
    if copied.Err? {
      return Err(copied.error);
    }
    var tree, entries := copied.value.0, copied.value.1;
    BuiltFromTree(tree.files, dump, keys, media, info);
    var files := tree.files[MANIFEST := NewManifest(info, entries)];
    var index := IndexTree(files, entries, keys);
    files := files[CHECKSUMS := index];
    var archive := ZipFiles(files);
    return Ok(archive);
  }
}
