/**
 * The request handlers of the server, each as a method on the bucket: the
 * guards every handler runs (a uid is present, the user exists), then its
 * store calls, with the status it answers. Whether a provider call throws
 * is an input (`Identity`, `StoreFaults`); the formatted upload time `t` and
 * the store's creation time `now` are inputs too.
 */
module Server {
  import opened Wrappers
  import opened Keys
  import opened Storage
  import opened Providers
  import opened Validation

  const ProfileCategory := "profilePicture"
  const OutfitCategory := "outfit"
  const Uncategorized := "Uncategorized"

  /** An entry of a clothes listing: `{name, url, category}`. */
  datatype ImageItem = ImageItem(name: string, url: string, category: string)

  /** An entry of the outfit listing: `{name, url, category, created}`. */
  datatype OutfitItem = OutfitItem(name: string, url: string, category: string, created: int)

  /** The payload of a clothes upload: `{imageUrl, category}`. */
  datatype ClothesUpload = ClothesUpload(imageUrl: string, category: string)

  /** `category || 'Uncategorized'`. */
  function OrUncategorized(category: string): (shown: string)
    ensures shown != ""
    ensures category != "" ==> shown == category
    ensures category == "" ==> shown == Uncategorized
  {
    if category == "" then Uncategorized else category
  }

  /** The guards every image handler runs first: a uid is present and the user exists. */
  predicate Admitted(identity: Identity, uid: string)
  {
    uid != "" && identity.getUser(uid)
  }

  // ---------------------------------------------------------------------
  // Profile image
  // ---------------------------------------------------------------------

  /** The objects after a profile upload: the profile prefix purged, then the new key written. */
  function ProfileReplaced(objects: map<string, ObjectMeta>, uid: string, t: string, meta: ObjectMeta): map<string, ObjectMeta>
  {
    WithoutPrefix(objects, ProfilePrefix(uid))[ProfileKey(uid, t) := meta]
  }

  /**
   * After a profile upload exactly one object lies in the user's profile
   * folder, the new one; every key outside the purged prefix keeps its
   * object, among them the user's clothes and outfits.
   */
  lemma ProfileReplaceLeavesOne(objects: map<string, ObjectMeta>, uid: string, t: string, meta: ObjectMeta)
    ensures KeysUnder(ProfileReplaced(objects, uid, t, meta), ProfileFolder(uid)) == {ProfileKey(uid, t)}
    ensures ProfileReplaced(objects, uid, t, meta)[ProfileKey(uid, t)] == meta
    ensures forall k :: k in objects && !(ProfilePrefix(uid) <= k) ==>
      k in ProfileReplaced(objects, uid, t, meta) && ProfileReplaced(objects, uid, t, meta)[k] == objects[k]
  {
    var purged := WithoutPrefix(objects, ProfilePrefix(uid));
    DeleteClearsPrefix(objects, ProfilePrefix(uid), ProfileFolder(uid));
    UploadKeysUnder(purged, ProfileFolder(uid), ProfileKey(uid, t), meta);
  }

  /** POST /profileimage/:uid. */
  method UploadProfileImage(bucket: Bucket, identity: Identity, faults: StoreFaults, uid: string,
                            upload: Option<string>, t: string, now: int)
    returns (r: Reply<string>, calls: seq<Call>)
    modifies bucket
    ensures uid == "" ==> r == Failure(400) && calls == []
    ensures uid != "" && !identity.getUser(uid) ==> r == Failure(404) && calls == [GetUser(uid)]
    ensures Admitted(identity, uid) && ReceivedFile(upload).None? ==> r == Failure(500) && calls == [GetUser(uid)]
    ensures Admitted(identity, uid) && ReceivedFile(upload).Some? ==>
      calls == [GetUser(uid), DeleteFiles(ProfilePrefix(uid))] +
               (if faults.deleteFails then [] else [UploadObject(ProfileKey(uid, t))])
    ensures r.Success? <==>
      Admitted(identity, uid) && ReceivedFile(upload).Some? && !faults.deleteFails && !faults.uploadFails
    ensures r.Failure? ==> r.code in {400, 404, 500}
    ensures r.Success? ==>
      && r.data == PublicUrl(ProfileKey(uid, t))
      && bucket.objects == ProfileReplaced(old(bucket.objects), uid, t, ObjectMeta(upload.value, ProfileCategory, now))
    ensures !(Admitted(identity, uid) && ReceivedFile(upload).Some? && !faults.deleteFails) ==>
      bucket.objects == old(bucket.objects)
    ensures Admitted(identity, uid) && ReceivedFile(upload).Some? && !faults.deleteFails && faults.uploadFails ==>
      bucket.objects == WithoutPrefix(old(bucket.objects), ProfilePrefix(uid))
  {
    calls := [];
    if uid == "" {
      return Failure(400), calls;
    }
    calls := calls + [GetUser(uid)];
    if !identity.getUser(uid) {
      return Failure(404), calls;
    }
    var file := ReceivedFile(upload);
    if file.None? {
      // `file.mimetype` on an undefined `req.file` throws before any store call.
      return Failure(500), calls;
    }
    var key := ProfileKey(uid, t);
    calls := calls + [DeleteFiles(ProfilePrefix(uid))];
    if faults.deleteFails {
      return Failure(500), calls;
    }
    bucket.DeleteFiles(ProfilePrefix(uid));
    calls := calls + [UploadObject(key)];
    if faults.uploadFails {
      return Failure(500), calls;
    }
    bucket.Upload(key, ObjectMeta(file.value, ProfileCategory, now));
    r := Success(PublicUrl(key));
  }

  /** `k` is under `prefix` and no object there was created later. */
  ghost predicate IsNewestUnder(objects: map<string, ObjectMeta>, prefix: string, k: string)
  {
    && k in KeysUnder(objects, prefix)
    && forall k' :: k' in KeysUnder(objects, prefix) ==> objects[k'].timeCreated <= objects[k].timeCreated
  }

  /** GET /profileimage/:uid: the URL of the newest object in the profile folder. */
  method GetProfileImage(bucket: Bucket, identity: Identity, faults: StoreFaults, uid: string)
    returns (r: Reply<string>)
    ensures uid == "" ==> r == Failure(400)
    ensures uid != "" && !identity.getUser(uid) ==> r == Failure(404)
    ensures Admitted(identity, uid) && faults.listFails ==> r == Failure(500)
    ensures Admitted(identity, uid) && !faults.listFails && KeysUnder(bucket.objects, ProfileFolder(uid)) == {} ==>
      r == Failure(404)
    ensures r.Success? <==>
      Admitted(identity, uid) && !faults.listFails && KeysUnder(bucket.objects, ProfileFolder(uid)) != {}
    ensures r.Success? ==>
      exists k :: IsNewestUnder(bucket.objects, ProfileFolder(uid), k) && r.data == PublicUrl(k)
  {
    if uid == "" {
      return Failure(400);
    }
    if !identity.getUser(uid) {
      return Failure(404);
    }
    if faults.listFails {
      return Failure(500);
    }
    var files := bucket.GetFiles(ProfileFolder(uid));
    if |files| == 0 {
      return Failure(404);
    }
    var latest := Latest(files);
    assert latest.name in FileNames(files);
    assert IsNewestUnder(bucket.objects, ProfileFolder(uid), latest.name);
    r := Success(PublicUrl(latest.name));
  }

  /**
   * Uploading a profile image and then fetching it gives back the URL of
   * that upload, whatever the folder held before.
   */
  method ReplaceThenGetProfile(bucket: Bucket, identity: Identity, uid: string, mimetype: string, t: string, now: int)
    returns (uploaded: Reply<string>, fetched: Reply<string>)
    requires Admitted(identity, uid) && mimetype in AcceptedMimeTypes
    modifies bucket
    ensures uploaded == Success(PublicUrl(ProfileKey(uid, t)))
    ensures fetched == uploaded
  {
    var calls;
    uploaded, calls := UploadProfileImage(bucket, identity, NoFaults, uid, Some(mimetype), t, now);
    ProfileReplaceLeavesOne(old(bucket.objects), uid, t, ObjectMeta(mimetype, ProfileCategory, now));
    fetched := GetProfileImage(bucket, identity, NoFaults, uid);
  }

  // ---------------------------------------------------------------------
  // Clothes
  // ---------------------------------------------------------------------

  /** POST /images/:uid/:category: adds or overwrites one key and removes nothing. */
  method UploadClothes(bucket: Bucket, identity: Identity, faults: StoreFaults, uid: string, category: string,
                       upload: Option<string>, t: string, now: int)
    returns (r: Reply<ClothesUpload>)
    modifies bucket
    ensures uid == "" || category == "" ==> r == Failure(400)
    ensures uid != "" && category != "" && !identity.getUser(uid) ==> r == Failure(404)
    ensures r.Success? <==>
      Admitted(identity, uid) && category != "" && ReceivedFile(upload).Some? && !faults.uploadFails
    ensures r.Failure? ==> r.code in {400, 404, 500} && bucket.objects == old(bucket.objects)
    ensures r.Success? ==>
      && r.data == ClothesUpload(PublicUrl(ClothesKey(uid, category, t)), category)
      && bucket.objects == old(bucket.objects)[ClothesKey(uid, category, t) := ObjectMeta(upload.value, category, now)]
    ensures old(bucket.objects).Keys <= bucket.objects.Keys
  {
    if uid == "" || category == "" {
      return Failure(400);
    }
    if !identity.getUser(uid) {
      return Failure(404);
    }
    var file := ReceivedFile(upload);
    if file.None? {
      return Failure(500);
    }
    if faults.uploadFails {
      return Failure(500);
    }
    var key := ClothesKey(uid, category, t);
    bucket.Upload(key, ObjectMeta(file.value, category, now));
    r := Success(ClothesUpload(PublicUrl(key), category));
  }

  /** A clothes entry as the unfiltered listing reports it: category from the object's metadata. */
  function MetadataItem(name: string, meta: ObjectMeta): ImageItem
  {
    ImageItem(name, PublicUrl(name), OrUncategorized(meta.category))
  }

  /** `files.map(...)` of the unfiltered listing, in listing order. */
  function MetadataView(files: seq<StoredFile>): (items: seq<ImageItem>)
    ensures |items| == |files|
    ensures forall i :: 0 <= i < |files| ==>
      items[i].name == files[i].name && items[i].url == PublicUrl(files[i].name) && items[i].category != ""
  {
    seq(|files|, i requires 0 <= i < |files| => MetadataItem(files[i].name, files[i].meta))
  }

  /** `items` reports every object under `prefix` exactly once, with its metadata category. */
  ghost predicate Describes(items: seq<ImageItem>, objects: map<string, ObjectMeta>, prefix: string)
  {
    && |items| == |KeysUnder(objects, prefix)|
    && (forall k :: k in KeysUnder(objects, prefix) ==> MetadataItem(k, objects[k]) in items)
    && (forall it :: it in items ==>
          it.name in KeysUnder(objects, prefix) && it == MetadataItem(it.name, objects[it.name]))
  }

  lemma MetadataViewDescribes(files: seq<StoredFile>, objects: map<string, ObjectMeta>, prefix: string)
    requires IsListing(files, objects, prefix)
    ensures Describes(MetadataView(files), objects, prefix)
  {
    var items := MetadataView(files);
    forall k | k in KeysUnder(objects, prefix)
      ensures MetadataItem(k, objects[k]) in items
    {
      assert k in FileNames(files);
      var f :| f in files && f.name == k;
      var i :| 0 <= i < |files| && files[i] == f;
      assert items[i] == MetadataItem(k, objects[k]);
    }
    forall it | it in items
      ensures it.name in KeysUnder(objects, prefix) && it == MetadataItem(it.name, objects[it.name])
    {
      var i :| 0 <= i < |items| && items[i] == it;
      assert files[i] in files;
    }
  }

  /**
   * GET /images/:uid: every clothes object of the user, with the category
   * from its metadata. The `category` query is read but filters nothing.
   */
  method ListClothes(bucket: Bucket, identity: Identity, faults: StoreFaults, uid: string, query: Option<string>)
    returns (r: Reply<seq<ImageItem>>)
    ensures uid == "" ==> r == Failure(400)
    ensures uid != "" && !identity.getUser(uid) ==> r == Failure(404)
    ensures Admitted(identity, uid) && faults.listFails ==> r == Failure(500)
    ensures r.Success? <==> Admitted(identity, uid) && !faults.listFails
    ensures r.Success? ==> Describes(r.data, bucket.objects, ClothesPrefix(uid))
  {
    if uid == "" {
      return Failure(400);
    }
    if !identity.getUser(uid) {
      return Failure(404);
    }
    if faults.listFails {
      return Failure(500);
    }
    var files := bucket.GetFiles(ClothesPrefix(uid));
    MetadataViewDescribes(files, bucket.objects, ClothesPrefix(uid));
    r := Success(MetadataView(files));
  }

  /** A clothes entry as the filtered listing reports it: the requested category. */
  function CategoryItem(name: string, category: string): ImageItem
  {
    ImageItem(name, PublicUrl(name), OrUncategorized(category))
  }

  /** The `filter` on the key-derived category and the `map` of the filtered listing. */
  function CategoryView(files: seq<StoredFile>, category: string): (items: seq<ImageItem>)
    ensures |items| <= |files|
  {
    if files == [] then []
    else if ParseCategory(files[0].name) == category then
      [CategoryItem(files[0].name, category)] + CategoryView(files[1..], category)
    else CategoryView(files[1..], category)
  }

  /** The filtered view holds an entry for exactly the listed files whose key names the category. */
  lemma {:induction false} CategoryViewFilters(files: seq<StoredFile>, category: string)
    ensures forall f :: f in files && ParseCategory(f.name) == category ==>
      CategoryItem(f.name, category) in CategoryView(files, category)
    ensures forall it :: it in CategoryView(files, category) ==>
      it.name in FileNames(files) && ParseCategory(it.name) == category && it == CategoryItem(it.name, category)
  {
    if files != [] {
      var head, tail := files[0], files[1..];
      var rest := CategoryView(tail, category);
      var items := CategoryView(files, category);
      CategoryViewFilters(tail, category);
      assert FileNames(tail) <= FileNames(files) by {
        forall n | n in FileNames(tail) ensures n in FileNames(files) {
          var f :| f in tail && f.name == n;
          assert f in files;
        }
      }
      assert items == (if ParseCategory(head.name) == category then [CategoryItem(head.name, category)] else []) + rest;
      forall f | f in files && ParseCategory(f.name) == category
        ensures CategoryItem(f.name, category) in items
      {
        if f != head {
          assert f in tail;
        }
      }
    }
  }

  /** The names of the listed files whose key-derived category is `category`. */
  function MatchingNames(files: seq<StoredFile>, category: string): set<string>
  {
    if files == [] then {}
    else (if ParseCategory(files[0].name) == category then {files[0].name} else {}) + MatchingNames(files[1..], category)
  }

  /**
   * The filter keeps exactly the listed names of the category, and on a
   * listing without repeated names it yields one entry per such name.
   */
  lemma {:induction false} CategoryViewCounts(files: seq<StoredFile>, category: string)
    ensures forall n :: n in MatchingNames(files, category) <==> n in FileNames(files) && ParseCategory(n) == category
    ensures DistinctNames(files) ==> |CategoryView(files, category)| == |MatchingNames(files, category)|
  {
    if files != [] {
      CategoryViewCounts(files[1..], category);
      FileNamesCons(files);
      if DistinctNames(files) {
        DistinctNamesCons(files);
      }
    }
  }

  /** The keys under `prefix` whose key-derived category is `category`. */
  function MatchingKeys(objects: map<string, ObjectMeta>, prefix: string, category: string): set<string>
  {
    set k | k in objects && prefix <= k && ParseCategory(k) == category
  }

  /** `items` reports exactly the objects under `prefix` whose key names `category`. */
  ghost predicate DescribesCategory(items: seq<ImageItem>, objects: map<string, ObjectMeta>, prefix: string, category: string)
  {
    && |items| == |MatchingKeys(objects, prefix, category)|
    && (forall k :: k in MatchingKeys(objects, prefix, category) ==> CategoryItem(k, category) in items)
    && (forall it :: it in items ==> it.name in MatchingKeys(objects, prefix, category) && it == CategoryItem(it.name, category))
  }

  /** GET /images/:uid/:category: the clothes whose key names the category; 404 when there are none. */
  method ListClothesByCategory(bucket: Bucket, identity: Identity, faults: StoreFaults, uid: string, category: string)
    returns (r: Reply<seq<ImageItem>>)
    ensures uid == "" ==> r == Failure(400)
    ensures uid != "" && !identity.getUser(uid) ==> r == Failure(404)
    ensures Admitted(identity, uid) && faults.listFails ==> r == Failure(500)
    ensures Admitted(identity, uid) && !faults.listFails && MatchingKeys(bucket.objects, ClothesPrefix(uid), category) == {} ==>
      r == Failure(404)
    ensures r.Success? <==>
      Admitted(identity, uid) && !faults.listFails && MatchingKeys(bucket.objects, ClothesPrefix(uid), category) != {}
    ensures r.Success? ==> |r.data| > 0 && DescribesCategory(r.data, bucket.objects, ClothesPrefix(uid), category)
  {
    if uid == "" {
      return Failure(400);
    }
    if !identity.getUser(uid) {
      return Failure(404);
    }
    if faults.listFails {
      return Failure(500);
    }
    var files := bucket.GetFiles(ClothesPrefix(uid));
    var items := CategoryView(files, category);
    CategoryViewFilters(files, category);
    CategoryViewCounts(files, category);
    var matching := MatchingKeys(bucket.objects, ClothesPrefix(uid), category);
    assert MatchingNames(files, category) == matching;
    forall k | k in matching
      ensures CategoryItem(k, category) in items
    {
      assert k in FileNames(files);
      var f :| f in files && f.name == k;
    }
    if |items| == 0 {
      assert items == [];
      assert matching == {};
      return Failure(404);
    }
    assert items[0] in items;
    assert items[0].name in KeysUnder(bucket.objects, ClothesPrefix(uid));
    assert items[0].name in matching;
    r := Success(items);
  }

  /** The metadata category agrees with the key-derived one for every clothes object of the user. */
  ghost predicate CategoriesAgree(objects: map<string, ObjectMeta>, uid: string)
  {
    forall k :: k in KeysUnder(objects, ClothesPrefix(uid)) ==> objects[k].category == ParseCategory(k)
  }

  /**
   * A clothes upload whose category has no `_` or `/` keeps the two sources
   * of a category in agreement; profile and outfit uploads of the user do not
   * touch the clothes prefix at all.
   */
  lemma UploadsKeepCategoriesAgreed(objects: map<string, ObjectMeta>, uid: string, category: string, n: nat,
                                   t: string, meta: ObjectMeta)
    requires CategoriesAgree(objects, uid)
    requires '_' !in category && '/' !in category && '/' !in t
    ensures meta.category == category ==> CategoriesAgree(objects[ClothesKey(uid, category, t) := meta], uid)
    ensures CategoriesAgree(ProfileReplaced(objects, uid, t, meta), uid)
    ensures CategoriesAgree(objects[OutfitKey(uid, n, t) := meta], uid)
  {
    ParseCategoryRoundTrip(uid, category, t);
    KindsDisjoint(uid, category, n, t, t);
    UploadKeysUnder(objects, ClothesPrefix(uid), ClothesKey(uid, category, t), meta);
    UploadKeysUnder(objects, ClothesPrefix(uid), OutfitKey(uid, n, t), meta);
    var purged := WithoutPrefix(objects, ProfilePrefix(uid));
    UploadKeysUnder(purged, ClothesPrefix(uid), ProfileKey(uid, t), meta);
  }

  // ---------------------------------------------------------------------
  // Outfits
  // ---------------------------------------------------------------------

  /** folderCount: the number of objects under a prefix. */
  method FolderCount(bucket: Bucket, folder: string) returns (count: nat)
    ensures count == |KeysUnder(bucket.objects, folder)|
  {
    var files := bucket.GetFiles(folder);
    if |files| == 0 {
      return 0;
    }
    count := |files|;
  }

  /** POST /outfit/:uid: the new outfit is numbered one past the current count of the folder. */
  method UploadOutfit(bucket: Bucket, identity: Identity, faults: StoreFaults, uid: string,
                      upload: Option<string>, t: string, now: int)
    returns (r: Reply<string>)
    modifies bucket
    ensures uid == "" ==> r == Failure(400)
    ensures uid != "" && !identity.getUser(uid) ==> r == Failure(404)
    ensures Admitted(identity, uid) && faults.listFails ==> r == Failure(500)
    ensures Admitted(identity, uid) && !faults.listFails && ReceivedFile(upload).None? ==> r == Failure(500)
    ensures r.Success? <==>
      Admitted(identity, uid) && !faults.listFails && ReceivedFile(upload).Some? && !faults.uploadFails
    ensures r.Failure? ==> r.code in {400, 404, 500} && bucket.objects == old(bucket.objects)
    ensures r.Success? ==>
      var key := OutfitKey(uid, |KeysUnder(old(bucket.objects), OutfitFolder(uid))| + 1, t);
      && r.data == PublicUrl(key)
      && bucket.objects == old(bucket.objects)[key := ObjectMeta(upload.value, OutfitCategory, now)]
  {
    if uid == "" {
      return Failure(400);
    }
    if !identity.getUser(uid) {
      return Failure(404);
    }
    if faults.listFails {
      return Failure(500);
    }
    var count := FolderCount(bucket, OutfitFolder(uid));
    var number := count + 1;
    var file := ReceivedFile(upload);
    if file.None? {
      return Failure(500);
    }
    if faults.uploadFails {
      return Failure(500);
    }
    var key := OutfitKey(uid, number, t);
    bucket.Upload(key, ObjectMeta(file.value, OutfitCategory, now));
    r := Success(PublicUrl(key));
  }

  /** The outfit keys written by sequential uploads at times `times`, numbered from 1. */
  function OutfitKeys(uid: string, times: seq<string>): set<string>
  {
    if times == [] then {}
    else OutfitKeys(uid, times[..|times| - 1]) + {OutfitKey(uid, |times|, times[|times| - 1])}
  }

  /** No key numbered past the number of uploads is among them. */
  lemma {:induction false} OutfitKeysBelow(uid: string, times: seq<string>, n: nat, t: string)
    requires n > |times|
    ensures OutfitKey(uid, n, t) !in OutfitKeys(uid, times)
  {
    if times != [] {
      var m := |times|;
      OutfitKeysBelow(uid, times[..m - 1], n, t);
      OutfitKeyInjective(uid, n, m, t, times[m - 1]);
    }
  }

  /** N sequential uploads write N distinct keys, all in the user's outfit folder. */
  lemma {:induction false} OutfitKeysCount(uid: string, times: seq<string>)
    ensures |OutfitKeys(uid, times)| == |times|
    ensures forall k :: k in OutfitKeys(uid, times) ==> OutfitFolder(uid) <= k
  {
    if times != [] {
      var m := |times|;
      OutfitKeysCount(uid, times[..m - 1]);
      OutfitKeysBelow(uid, times[..m - 1], m, times[m - 1]);
    }
  }

  /**
   * Sequential outfit uploads into an empty outfit folder are numbered
   * 1, 2, ..., N, and leave exactly those N outfits in the folder.
   */
  method UploadOutfitsInOrder(bucket: Bucket, identity: Identity, uid: string, mimetype: string,
                              times: seq<string>, clock: seq<int>)
    returns (urls: seq<string>)
    requires Admitted(identity, uid) && mimetype in AcceptedMimeTypes
    requires |clock| == |times|
    requires KeysUnder(bucket.objects, OutfitFolder(uid)) == {}
    modifies bucket
    ensures |urls| == |times|
    ensures forall i :: 0 <= i < |times| ==> urls[i] == PublicUrl(OutfitKey(uid, i + 1, times[i]))
    ensures KeysUnder(bucket.objects, OutfitFolder(uid)) == OutfitKeys(uid, times)
    ensures |KeysUnder(bucket.objects, OutfitFolder(uid))| == |times|
  {
    urls := [];
    var i := 0;
    while i < |times|
      invariant 0 <= i <= |times|
      invariant |urls| == i
      invariant forall j :: 0 <= j < i ==> urls[j] == PublicUrl(OutfitKey(uid, j + 1, times[j]))
      invariant KeysUnder(bucket.objects, OutfitFolder(uid)) == OutfitKeys(uid, times[..i])
    {
      ghost var before := bucket.objects;
      var meta := ObjectMeta(mimetype, OutfitCategory, clock[i]);
      OutfitStep(before, uid, times, i, meta);
      var r := UploadOutfit(bucket, identity, NoFaults, uid, Some(mimetype), times[i], clock[i]);
      assert r.Success? && bucket.objects == before[OutfitKey(uid, i + 1, times[i]) := meta];
      urls := urls + [r.data];
      i := i + 1;
    }
    assert times[..i] == times;
    OutfitKeysCount(uid, times);
  }

  /** One step of sequential outfit uploads: the next upload is numbered `i + 1` and extends the written keys. */
  lemma OutfitStep(objects: map<string, ObjectMeta>, uid: string, times: seq<string>, i: nat, meta: ObjectMeta)
    requires i < |times|
    requires KeysUnder(objects, OutfitFolder(uid)) == OutfitKeys(uid, times[..i])
    ensures |KeysUnder(objects, OutfitFolder(uid))| == i
    ensures KeysUnder(objects[OutfitKey(uid, i + 1, times[i]) := meta], OutfitFolder(uid)) == OutfitKeys(uid, times[..i + 1])
  {
    OutfitKeysCount(uid, times[..i]);
    UploadKeysUnder(objects, OutfitFolder(uid), OutfitKey(uid, i + 1, times[i]), meta);
    assert times[..i + 1][..i] == times[..i];
  }

  /** An outfit entry: category from the metadata, `created` from the object's creation time. */
  function OutfitEntry(name: string, meta: ObjectMeta): OutfitItem
  {
    OutfitItem(name, PublicUrl(name), OrUncategorized(meta.category), meta.timeCreated)
  }

  /** `files.map(...)` of the outfit listing; the later `sort` compares absent fields and keeps this order. */
  function OutfitView(files: seq<StoredFile>): (items: seq<OutfitItem>)
    ensures |items| == |files|
    ensures forall i :: 0 <= i < |files| ==>
      items[i].name == files[i].name && items[i].url == PublicUrl(files[i].name) && items[i].category != ""
      && items[i].created == files[i].meta.timeCreated
  {
    seq(|files|, i requires 0 <= i < |files| => OutfitEntry(files[i].name, files[i].meta))
  }

  /** `items` reports every object under `prefix` exactly once, as an outfit entry. */
  ghost predicate DescribesOutfits(items: seq<OutfitItem>, objects: map<string, ObjectMeta>, prefix: string)
  {
    && |items| == |KeysUnder(objects, prefix)|
    && (forall k :: k in KeysUnder(objects, prefix) ==> OutfitEntry(k, objects[k]) in items)
    && (forall it :: it in items ==>
          it.name in KeysUnder(objects, prefix) && it == OutfitEntry(it.name, objects[it.name]))
  }

  /** GET /outfit/:uid: every object of the outfit folder; 404 when it is empty. */
  method ListOutfits(bucket: Bucket, identity: Identity, faults: StoreFaults, uid: string)
    returns (r: Reply<seq<OutfitItem>>)
    ensures uid == "" ==> r == Failure(400)
    ensures uid != "" && !identity.getUser(uid) ==> r == Failure(404)
    ensures Admitted(identity, uid) && faults.listFails ==> r == Failure(500)
    ensures Admitted(identity, uid) && !faults.listFails && KeysUnder(bucket.objects, OutfitFolder(uid)) == {} ==>
      r == Failure(404)
    ensures r.Success? <==>
      Admitted(identity, uid) && !faults.listFails && KeysUnder(bucket.objects, OutfitFolder(uid)) != {}
    ensures r.Success? ==> DescribesOutfits(r.data, bucket.objects, OutfitFolder(uid))
  {
    if uid == "" {
      return Failure(400);
    }
    if !identity.getUser(uid) {
      return Failure(404);
    }
    if faults.listFails {
      return Failure(500);
    }
    var files := bucket.GetFiles(OutfitFolder(uid));
    if |files| == 0 {
      return Failure(404);
    }
    var items := OutfitView(files);
    var objects := bucket.objects;
    forall k | k in KeysUnder(objects, OutfitFolder(uid))
      ensures OutfitEntry(k, objects[k]) in items
    {
      assert k in FileNames(files);
      var f :| f in files && f.name == k;
      var i :| 0 <= i < |files| && files[i] == f;
      assert items[i] == OutfitEntry(k, objects[k]);
    }
    forall it | it in items
      ensures it.name in KeysUnder(objects, OutfitFolder(uid)) && it == OutfitEntry(it.name, objects[it.name])
    {
      var i :| 0 <= i < |items| && items[i] == it;
      assert files[i] in files;
    }
    r := Success(items);
  }

  // ---------------------------------------------------------------------
  // Account deletion
  // ---------------------------------------------------------------------

  /** deleteStorageFolder: removes the user's whole `userimages/{uid}/` tree. */
  method DeleteStorageFolder(bucket: Bucket, uid: string)
    modifies bucket
    ensures bucket.objects == WithoutPrefix(old(bucket.objects), UserFolder(uid))
  {
    bucket.DeleteFiles(UserFolder(uid));
  }

  /** Every call to `DeleteUser` comes right after the deletion of that user's storage folder. */
  ghost predicate StorageBeforeIdentity(calls: seq<Call>)
  {
    forall i :: 0 <= i < |calls| && calls[i].DeleteUser? ==>
      0 < i && calls[i - 1] == DeleteFiles(UserFolder(calls[i].uid))
  }

  /**
   * DELETE /deleteaccount/:email: resolve the uid by email, delete the
   * storage folder, then the identity; any failure answers 500 and stops.
   */
  method DeleteAccount(bucket: Bucket, identity: Identity, faults: StoreFaults, email: string)
    returns (code: int, calls: seq<Call>)
    modifies bucket
    ensures code in {200, 500}
    ensures StorageBeforeIdentity(calls)
    ensures identity.getUserByEmail(email).None? ==>
      code == 500 && calls == [GetUserByEmail(email)] && bucket.objects == old(bucket.objects)
    ensures identity.getUserByEmail(email).Some? ==>
      var uid := identity.getUserByEmail(email).value;
      && calls == [GetUserByEmail(email), DeleteFiles(UserFolder(uid))] + (if faults.deleteFails then [] else [DeleteUser(uid)])
      && bucket.objects == (if faults.deleteFails then old(bucket.objects) else WithoutPrefix(old(bucket.objects), UserFolder(uid)))
      && (code == 200 <==> !faults.deleteFails && identity.deleteUser(uid))
  {
    calls := [GetUserByEmail(email)];
    var found := identity.getUserByEmail(email);
    if found.None? {
      return 500, calls;
    }
    var uid := found.value;
    calls := calls + [DeleteFiles(UserFolder(uid))];
    if faults.deleteFails {
      return 500, calls;
    }
    DeleteStorageFolder(bucket, uid);
    calls := calls + [DeleteUser(uid)];
    if !identity.deleteUser(uid) {
      return 500, calls;
    }
    code := 200;
  }

  /** After the cascade's storage step no key the upload handlers could have built for the user remains. */
  lemma AccountDeletionClearsUser(objects: map<string, ObjectMeta>, uid: string, category: string, n: nat, t: string)
    ensures KeysUnder(WithoutPrefix(objects, UserFolder(uid)), UserFolder(uid)) == {}
    ensures ProfileKey(uid, t) !in WithoutPrefix(objects, UserFolder(uid))
    ensures ClothesKey(uid, category, t) !in WithoutPrefix(objects, UserFolder(uid))
    ensures OutfitKey(uid, n, t) !in WithoutPrefix(objects, UserFolder(uid))
  {
    DeleteClearsPrefix(objects, UserFolder(uid), UserFolder(uid));
  }

  /** The storage step keeps every object of another user, when neither uid contains `/`. */
  lemma AccountDeletionSparesOthers(objects: map<string, ObjectMeta>, uid: string, other: string, k: string)
    requires '/' !in uid && '/' !in other && uid != other
    requires k in objects && UserFolder(other) <= k
    ensures k in WithoutPrefix(objects, UserFolder(uid))
    ensures WithoutPrefix(objects, UserFolder(uid))[k] == objects[k]
  {
    assert k == UserFolder(other) + k[|UserFolder(other)|..];
    UserFoldersDisjoint(uid, other, k[|UserFolder(other)|..]);
  }
}
