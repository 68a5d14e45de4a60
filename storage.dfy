/**
 * The object store: a flat map from key to object metadata, addressed by
 * key prefix, as the server uses it through `bucket.upload`,
 * `bucket.deleteFiles` and `bucket.getFiles`.
 */
module Storage {

  const BucketName := "capstoneproject-ch2ps217.appspot.com"

  const UrlBase := "https://storage.googleapis.com/" + BucketName + "/"

  /** The public URL the handlers return for an object: the key follows a fixed base. */
  function PublicUrl(key: string): (url: string)
    ensures UrlBase <= url && url[|UrlBase|..] == key
  {
    UrlBase + key
  }

  lemma PublicUrlInjective(a: string, b: string)
    requires PublicUrl(a) == PublicUrl(b)
    ensures a == b
  {
  }

  /** What the server stores and reads of an object: its content type, `metadata.category` and `timeCreated`. */
  datatype ObjectMeta = ObjectMeta(contentType: string, category: string, timeCreated: int)

  /** One entry of a listing. */
  datatype StoredFile = StoredFile(name: string, meta: ObjectMeta)

  function KeysUnder(objects: map<string, ObjectMeta>, prefix: string): set<string>
  {
    set k | k in objects && prefix <= k
  }

  /** The objects left once every key starting with `prefix` is deleted. */
  function WithoutPrefix(objects: map<string, ObjectMeta>, prefix: string): (rest: map<string, ObjectMeta>)
    ensures forall k :: k in rest <==> k in objects && !(prefix <= k)
    ensures forall k :: k in rest ==> rest[k] == objects[k]
  {
    map k | k in objects && !(prefix <= k) :: objects[k]
  }

  function FileNames(files: seq<StoredFile>): set<string>
  {
    set f | f in files :: f.name
  }

  /** No key is listed twice. */
  ghost predicate DistinctNames(files: seq<StoredFile>)
  {
    forall i, j :: 0 <= i < j < |files| ==> files[i].name != files[j].name
  }

  /** Every listed entry carries the metadata stored under its key. */
  ghost predicate Agrees(files: seq<StoredFile>, objects: map<string, ObjectMeta>)
  {
    forall f :: f in files ==> f.name in objects && objects[f.name] == f.meta
  }

  /** `files` lists the objects under `prefix`: each exactly once, with its stored metadata. */
  ghost predicate IsListing(files: seq<StoredFile>, objects: map<string, ObjectMeta>, prefix: string)
  {
    && FileNames(files) == KeysUnder(objects, prefix)
    && |files| == |KeysUnder(objects, prefix)|
    && DistinctNames(files)
    && Agrees(files, objects)
  }

  /** The names of a non-empty listing: the first one and those of the rest. */
  lemma FileNamesCons(files: seq<StoredFile>)
    requires files != []
    ensures FileNames(files) == {files[0].name} + FileNames(files[1..])
  {
    forall n | n in FileNames(files) && n != files[0].name
      ensures n in FileNames(files[1..])
    {
      var f :| f in files && f.name == n;
      var i :| 0 <= i < |files| && files[i] == f;
      assert files[1..][i - 1] == f;
    }
    forall n | n in FileNames(files[1..])
      ensures n in FileNames(files)
    {
      var f :| f in files[1..] && f.name == n;
      assert f in files;
    }
  }

  /** Without repeated names, the first name is not listed again and the rest has no repeats. */
  lemma DistinctNamesCons(files: seq<StoredFile>)
    requires files != [] && DistinctNames(files)
    ensures DistinctNames(files[1..])
    ensures files[0].name !in FileNames(files[1..])
  {
    var tail := files[1..];
    forall i, j | 0 <= i < j < |tail|
      ensures tail[i].name != tail[j].name
    {
      assert tail[i] == files[i + 1] && tail[j] == files[j + 1];
    }
    forall f | f in tail
      ensures f.name != files[0].name
    {
      var j :| 0 <= j < |tail| && tail[j] == f;
      assert files[j + 1] == f;
    }
  }

  /** Appending an entry whose key is not listed yet keeps the names distinct. */
  lemma AppendUnlisted(files: seq<StoredFile>, entry: StoredFile)
    requires DistinctNames(files) && entry.name !in FileNames(files)
    ensures DistinctNames(files + [entry])
    ensures FileNames(files + [entry]) == FileNames(files) + {entry.name}
  {
    assert forall i :: 0 <= i < |files| ==> files[i] in files && files[i].name in FileNames(files);
    assert forall f :: f in files + [entry] <==> f in files || f == entry;
  }

  class Bucket {
    var objects: map<string, ObjectMeta>

    constructor ()
      ensures objects == map[]
    {
      objects := map[];
    }

    /** `bucket.upload`: stores the object at `key`, replacing any object already there. */
    method Upload(key: string, meta: ObjectMeta)
      modifies this
      ensures objects == old(objects)[key := meta]
    {
      objects := objects[key := meta];
    }

    /** `bucket.deleteFiles({prefix})`: removes every object whose key starts with `prefix`. */
    method DeleteFiles(prefix: string)
      modifies this
      ensures objects == WithoutPrefix(old(objects), prefix)
      ensures KeysUnder(objects, prefix) == {}
      ensures forall k :: k in old(objects) && !(prefix <= k) ==> k in objects && objects[k] == old(objects)[k]
    {
      objects := WithoutPrefix(objects, prefix);
    }

    /** `bucket.getFiles({prefix})`: every object under `prefix`, once each, in the store's order. */
    method GetFiles(prefix: string) returns (files: seq<StoredFile>)
      ensures IsListing(files, objects, prefix)
    {
      var pending := KeysUnder(objects, prefix);
      files := [];
      while pending != {}
        invariant FileNames(files) + pending == KeysUnder(objects, prefix)
        invariant FileNames(files) !! pending
        invariant |files| + |pending| == |KeysUnder(objects, prefix)|
        invariant DistinctNames(files)
        invariant Agrees(files, objects)
        decreases pending
      {
        var k :| k in pending;
        var entry := StoredFile(k, objects[k]);
        AppendUnlisted(files, entry);
        files := files + [entry];
        pending := pending - {k};
      }
    }
  }

  /** Deleting a prefix leaves nothing under any longer prefix. */
  lemma DeleteClearsPrefix(objects: map<string, ObjectMeta>, prefix: string, folder: string)
    requires prefix <= folder
    ensures KeysUnder(WithoutPrefix(objects, prefix), folder) == {}
  {
    forall k | k in objects && folder <= k
      ensures prefix <= k
    {
      assert k[..|prefix|] == folder[..|prefix|];
    }
  }

  /** An upload adds its key to the keys under a prefix when it lies there, and changes nothing else there. */
  lemma UploadKeysUnder(objects: map<string, ObjectMeta>, prefix: string, key: string, meta: ObjectMeta)
    ensures KeysUnder(objects[key := meta], prefix) == KeysUnder(objects, prefix) + (if prefix <= key then {key} else {})
  {
  }

  /** The step of the `reduce` that picks the later file; on a tie the current one wins. */
  function Later(latest: StoredFile, current: StoredFile): (f: StoredFile)
    ensures f == latest || f == current
    ensures f.meta.timeCreated >= latest.meta.timeCreated && f.meta.timeCreated >= current.meta.timeCreated
    ensures latest.meta.timeCreated == current.meta.timeCreated ==> f == current
  {
    if latest.meta.timeCreated > current.meta.timeCreated then latest else current
  }

  /** `files.reduce(Later)`, which starts from the first file. */
  function Latest(files: seq<StoredFile>): (f: StoredFile)
    requires |files| > 0
    ensures f in files
    ensures forall g :: g in files ==> g.meta.timeCreated <= f.meta.timeCreated
  {
    if |files| == 1 then files[0]
    else
      var init := files[..|files| - 1];
      assert files == init + [files[|files| - 1]];
      Later(Latest(init), files[|files| - 1])
  }

  /** `files[j]` is the fold's result and no file listed after it was created as late. */
  ghost predicate IsLastNewest(files: seq<StoredFile>, j: int)
    requires |files| > 0
  {
    && 0 <= j < |files|
    && files[j] == Latest(files)
    && forall i :: j < i < |files| ==> files[i].meta.timeCreated < files[j].meta.timeCreated
  }

  /** Among files created at the same latest time, the fold keeps the one listed last. */
  lemma {:induction false} LatestIsLastNewest(files: seq<StoredFile>)
    requires |files| > 0
    ensures exists j :: IsLastNewest(files, j)
  {
    var n := |files|;
    if n == 1 {
      assert IsLastNewest(files, 0);
    } else {
      var init := files[..n - 1];
      var last := files[n - 1];
      assert Latest(files) == Later(Latest(init), last);
      if Latest(init).meta.timeCreated > last.meta.timeCreated {
        LatestIsLastNewest(init);
        var j :| IsLastNewest(init, j);
        assert files[j] == init[j];
        assert forall i :: j < i < n - 1 ==> files[i] == init[i];
        assert IsLastNewest(files, j);
      } else {
        assert IsLastNewest(files, n - 1);
      }
    }
  }
}
