/**
 * The found-item catalog in the object store, its lister (backend/foundItems) and its
 * deleter (backend/deleteItem). The store is a map from bucket name to a bucket, and a
 * bucket is a map from object key to the object's bytes.
 */
module Catalog {
  import opened Common

  /** The lister's bucket, fixed in the handler. */
  const FoundBucket := "found-items"

  /** The most keys one `listObjectsV2` page holds. */
  const MaxKeys := 1000

  /** The error text of a delete in a bucket the store does not have. */
  const NoSuchBucket := "NoSuchBucket: The specified bucket does not exist"

  type Bucket = map<string, Bytes>

  datatype ObjectSummary = ObjectSummary(key: string, size: nat)

  /** One `listObjectsV2` reply: its `Contents` may be absent, or the call may throw. */
  datatype ListReply = Listed(contents: Option<seq<ObjectSummary>>) | ListThrew

  datatype ListBody = Keys(keys: seq<string>) | ListError(error: string)

  /** `data.Contents.map(item => item.Key)`. */
  function KeysOf(objs: seq<ObjectSummary>): (r: seq<string>)
    ensures |r| == |objs|
    ensures forall i :: 0 <= i < |objs| ==> r[i] == objs[i].key
  {
    seq(|objs|, i requires 0 <= i < |objs| => objs[i].key)
  }

  /**
   * backend/foundItems: one listing call on `FoundBucket` and nothing else. A reply
   * without `Contents` makes the `map` throw, which ends in the same 500 as a failed call.
   */
  function FoundItems(reply: ListReply): (r: Response<ListBody>)
    ensures r.statusCode == 200 <==> reply.Listed? && reply.contents.Some?
    ensures r.statusCode == 200 ==>
              r.body.Keys? && |r.body.keys| == |reply.contents.value|
              && forall i :: 0 <= i < |r.body.keys| ==> r.body.keys[i] == reply.contents.value[i].key
    ensures r.statusCode != 200 ==> r == Response(500, ListError("Failed to list items"))
  {
    match reply
    case Listed(Some(objs)) => Response(200, Keys(KeysOf(objs)))
    case _ => Response(500, ListError("Failed to list items"))
  }

  /** No key occurs twice in `keys`. */
  predicate Distinct(keys: seq<string>)
  {
    forall i, j :: 0 <= i < j < |keys| ==> keys[i] != keys[j]
  }

  /**
   * What one page of a listing of `bucket` is: distinct keys of the bucket, at most
   * `MaxKeys` of them, and all of the bucket's keys unless the page is full.
   */
  predicate IsFirstPage(bucket: Bucket, objs: seq<ObjectSummary>)
  {
    && |objs| <= MaxKeys
    && (forall i :: 0 <= i < |objs| ==> objs[i].key in bucket)
    && Distinct(KeysOf(objs))
    && (|objs| == |bucket| || |objs| == MaxKeys)
  }

  lemma {:induction false} DistinctCard(keys: seq<string>)
    requires Distinct(keys)
    ensures |set k | k in keys| == |keys|
  {
    if keys != [] {
      var rest := keys[1..];
      assert Distinct(rest) by {
        forall i, j | 0 <= i < j < |rest| ensures rest[i] != rest[j] {
          assert rest[i] == keys[i + 1] && rest[j] == keys[j + 1];
        }
      }
      DistinctCard(rest);
      assert (set k | k in keys) == (set k | k in rest) + {keys[0]};
      assert keys[0] !in (set k | k in rest) by {
        forall i | 0 <= i < |rest| ensures rest[i] != keys[0] {
          assert rest[i] == keys[i + 1];
        }
      }
    }
  }

  /** A page never holds more keys than the bucket, and a bucket that fits one page is listed whole. */
  lemma PageSize(bucket: Bucket, objs: seq<ObjectSummary>)
    requires IsFirstPage(bucket, objs)
    ensures |objs| <= |bucket|
    ensures |bucket| <= MaxKeys ==> |objs| == |bucket|
  {
    var keys := KeysOf(objs);
    DistinctCard(keys);
    SubsetCard((set k | k in keys), bucket.Keys);
  }

  /** A page of a bucket of at most `MaxKeys` objects lists every key of the bucket. */
  lemma PageListsAll(bucket: Bucket, objs: seq<ObjectSummary>, key: string)
    requires IsFirstPage(bucket, objs) && |bucket| <= MaxKeys && key in bucket
    ensures key in KeysOf(objs)
  {
    var keys := KeysOf(objs);
    var listed := set k | k in keys;
    DistinctCard(keys);
    PageSize(bucket, objs);
    if key !in keys {
      SubsetCard(listed, bucket.Keys - {key});
    }
  }

  /** The object store, changed in place by uploads and deletes. */
  class ObjectStore {
    var buckets: map<string, Bucket>

    constructor (initial: map<string, Bucket>)
      ensures buckets == initial
    {
      buckets := initial;
    }

    /**
     * The upload `PUT` on `bucket/key`, which the store performs as an unconditional
     * write: an object of the same name is overwritten. `fail` is a rejected request.
     */
    method Put(bucket: string, key: string, content: Bytes, fail: bool) returns (ok: bool)
      modifies this
      ensures ok <==> !fail && bucket in old(buckets)
      ensures ok ==> buckets == old(buckets)[bucket := old(buckets)[bucket][key := content]]
      ensures !ok ==> buckets == old(buckets)
    {
      ok := !fail && bucket in buckets;
      if ok {
        buckets := buckets[bucket := buckets[bucket][key := content]];
      }
    }

    /**
     * backend/deleteItem: bucket and key come from the event as they are; there is no
     * existence check, so deleting an absent key also succeeds. `storeError` is the text
     * of a store call that throws.
     */
    method DeleteItem(bucket: string, key: string, storeError: Option<string>) returns (r: Response<string>)
      modifies this
      ensures storeError.None? && bucket in old(buckets) ==>
                && buckets == old(buckets)[bucket := old(buckets)[bucket] - {key}]
                && r == Response(200, "File " + key + " successfully deleted from bucket " + bucket)
      ensures storeError.Some? ==>
                && buckets == old(buckets)
                && r == Response(500, "Error deleting file " + key + " from bucket " + bucket + ": " + storeError.value)
      ensures storeError.None? && bucket !in old(buckets) ==>
                && buckets == old(buckets)
                && r == Response(500, "Error deleting file " + key + " from bucket " + bucket + ": " + NoSuchBucket)
    {
      if storeError.Some? {
        r := Response(500, "Error deleting file " + key + " from bucket " + bucket + ": " + storeError.value);
      } else if bucket !in buckets {
        r := Response(500, "Error deleting file " + key + " from bucket " + bucket + ": " + NoSuchBucket);
      } else {
        buckets := buckets[bucket := buckets[bucket] - {key}];
        r := Response(200, "File " + key + " successfully deleted from bucket " + bucket);
      }
    }
  }

  /** After a delete of `key`, no page of the bucket lists `key`. */
  lemma DeletedKeyNotListed(bucket: Bucket, key: string, objs: seq<ObjectSummary>)
    requires IsFirstPage(bucket - {key}, objs)
    ensures key !in FoundItemsKeys(Listed(Some(objs)))
  {
  }

  /** After an upload of `key` into a bucket of fewer than `MaxKeys` objects, every page lists `key`. */
  lemma UploadedKeyListed(bucket: Bucket, key: string, content: Bytes, objs: seq<ObjectSummary>)
    requires |bucket| < MaxKeys
    requires IsFirstPage(bucket[key := content], objs)
    ensures key in FoundItemsKeys(Listed(Some(objs)))
  {
    assert |bucket[key := content].Keys| <= |bucket.Keys| + 1 by {
      assert bucket[key := content].Keys == bucket.Keys + {key};
    }
    PageListsAll(bucket[key := content], objs, key);
  }

  /** The keys a successful lister reply carries, and none for a failed one. */
  function FoundItemsKeys(reply: ListReply): (r: seq<string>)
    ensures reply.Listed? && reply.contents.Some? ==>
              |r| == |reply.contents.value|
              && forall i :: 0 <= i < |r| ==> r[i] == reply.contents.value[i].key
    ensures !(reply.Listed? && reply.contents.Some?) ==> r == []
  {
    var resp := FoundItems(reply);
    if resp.statusCode == 200 then resp.body.keys else []
  }

  /**
   * The catalog round trip on an empty `found-items` bucket: after uploading
   * "lostcat.jpg" the only page lists exactly ["lostcat.jpg"]; after deleting it the
   * only page is empty.
   */
  lemma CatalogRoundTrip(content: Bytes, afterPut: seq<ObjectSummary>, afterDelete: seq<ObjectSummary>)
    requires IsFirstPage(map["lostcat.jpg" := content], afterPut)
    requires IsFirstPage(map["lostcat.jpg" := content] - {"lostcat.jpg"}, afterDelete)
    ensures FoundItemsKeys(Listed(Some(afterPut))) == ["lostcat.jpg"]
    ensures FoundItemsKeys(Listed(Some(afterDelete))) == []
  {
    var one := map["lostcat.jpg" := content];
    assert |one| == 1;
    PageSize(one, afterPut);
    assert afterPut[0].key in one;
    var none := one - {"lostcat.jpg"};
    assert none == map[];
    PageSize(none, afterDelete);
  }
}
