/** `HubBucketEvidenceReader` (bucket_evidence.py): listings and file contents cached over
    a bucket whose objects are write-once. */
module EvidenceReader {
  import opened Common

  type Bytes = string

  const DOWNLOAD_BATCH_SIZE := 1024

  /** The bucket: other components publish new objects but never change one. */
  class Bucket {
    var objects: map<string, Bytes>

    constructor ()
      ensures objects == map[]
    {
      objects := map[];
    }

    method Publish(more: map<string, Bytes>)
      modifies this
      ensures forall path | path in old(objects) :: path in objects && objects[path] == old(objects)[path]
      ensures objects == more + old(objects)
    {
      objects := more + objects;
    }
  }

  function FullPath(prefix: string, path: string): string {
    prefix + "/" + path
  }

  datatype Error = Missing

  class Reader {
    const bucket: Bucket
    var listings: map<string, set<string>>  // by prefix: the relative paths listed under it
    var prefetched: set<string>
    var cache: map<string, Bytes>  // by full path, as the hashed file name is

    /** Everything remembered is still true of the bucket. */
    ghost predicate Valid()
      reads this, bucket
    {
      && (forall prefix, path | prefix in listings && path in listings[prefix] :: FullPath(prefix, path) in bucket.objects)
      && (forall full | full in cache :: full in bucket.objects && cache[full] == bucket.objects[full])
      && (forall prefix | prefix in prefetched :: prefix in listings
            && forall path | path in listings[prefix] :: FullPath(prefix, path) in cache)
    }

    constructor (bucket: Bucket)
      ensures Valid() && this.bucket == bucket && listings == map[]
    {
      this.bucket := bucket;
      listings, prefetched, cache := map[], {}, map[];
    }

    /** `_listing`: the first listing of a prefix is kept until `refresh`. */
    method Listing(prefix: string) returns (listing: set<string>)
      requires Valid()
      modifies this`listings
      ensures Valid() && prefix in listings && listing == listings[prefix]
      ensures prefix in old(listings) ==> listings == old(listings)
      ensures prefix !in old(listings) ==>
                && listings == old(listings)[prefix := listing]
                && forall path :: path in listing <==> FullPath(prefix, path) in bucket.objects
    {
      if prefix in listings { return listings[prefix]; }
      var start := |prefix| + 1;
      listing := set full | full in bucket.objects && IsUnder(full, prefix) :: full[start..];
      forall path ensures path in listing <==> FullPath(prefix, path) in bucket.objects {
        if FullPath(prefix, path) in bucket.objects {
          assert FullPath(prefix, path)[start..] == path;
        }
        forall full | full in bucket.objects && IsUnder(full, prefix) && full[start..] == path ensures full == FullPath(prefix, path) {
          assert full == full[..start] + full[start..];
        }
      }
      listings := listings[prefix := listing];
    }

    /** `_download_missing`: batches of at most 1024, each moved into place as a whole. */
    method DownloadMissing(prefix: string, selected: set<string>)
      requires Valid() && forall path | path in selected :: FullPath(prefix, path) in bucket.objects
      modifies this`cache
      ensures Valid()
      ensures forall full :: full in cache <==> full in old(cache) || IsUnderAny(full, prefix, selected)
    {
      var missing := set path | path in selected && FullPath(prefix, path) !in cache;
      while missing != {}
        invariant Valid() && missing <= selected
        invariant forall path | path in selected && path !in missing :: FullPath(prefix, path) in cache
        invariant forall full | full in old(cache) :: full in cache
        invariant forall full | full in cache :: full in old(cache) || IsUnderAny(full, prefix, selected)
        decreases |missing|
      {
        var batch := TakeBatch(missing);
        cache := cache + map full | full in (set path | path in batch :: FullPath(prefix, path)) :: bucket.objects[full];
        missing := missing - batch;
      }
    }

    method TakeBatch(missing: set<string>) returns (batch: set<string>)
      requires missing != {}
      ensures batch != {} && batch <= missing && |batch| <= DOWNLOAD_BATCH_SIZE
      ensures |missing - batch| < |missing|
      ensures |batch| == DOWNLOAD_BATCH_SIZE || batch == missing
    {
      var path :| path in missing;
      batch := {path};
      while |batch| < DOWNLOAD_BATCH_SIZE && batch != missing
        invariant batch != {} && batch <= missing && |batch| <= DOWNLOAD_BATCH_SIZE
        decreases DOWNLOAD_BATCH_SIZE - |batch|
      {
        assert missing - batch != {};
        var next :| next in missing - batch;
        batch := batch + {next};
      }
      assert |missing| == |missing - batch| + |batch| by {
        assert missing == (missing - batch) + batch;
      }
    }

    /** `read_bytes` returns exactly what reading the object directly would; it reports a
        path missing exactly when the listing it uses does not have it. */
    method ReadBytes(prefix: string, path: string) returns (r: Result<Bytes, Error>)
      requires Valid()
      modifies this
      ensures Valid() && prefix in listings
      ensures r.Ok? ==> Lookup(bucket.objects, FullPath(prefix, path)) == Some(r.value)
      ensures r == Err(Missing) <==> path !in listings[prefix]
      ensures r.Ok? || r == Err(Missing)
      ensures prefix in old(listings) ==> listings == old(listings)
      ensures prefix !in old(listings) && r.Err? ==> FullPath(prefix, path) !in bucket.objects
      ensures r.Err? || FullPath(prefix, path) in old(cache) ==> cache == old(cache)
      ensures r.Ok? && FullPath(prefix, path) !in old(cache) ==>
                forall full :: full in cache <==> full in old(cache) || IsUnderAny(full, prefix, listings[prefix])
    {
      var listing := Listing(prefix);
      if path !in listing { return Err(Missing); }
      if FullPath(prefix, path) !in cache { Prefetch(prefix, listing); }
      r := Ok(cache[FullPath(prefix, path)]);
    }

    /** `_prefetch` */
    method Prefetch(prefix: string, listing: set<string>)
      requires Valid() && prefix in listings && listing == listings[prefix]
      modifies this`cache, this`prefetched
      ensures Valid() && prefetched == old(prefetched) + {prefix}
      ensures prefix in old(prefetched) ==> cache == old(cache)
      ensures forall full :: full in cache <==> full in old(cache) || IsUnderAny(full, prefix, listing)
    {
      if prefix in prefetched { return; }
      DownloadMissing(prefix, listing);
      prefetched := prefetched + {prefix};
    }

    /** `refresh` */
    method Refresh()
      modifies this
      ensures Valid() && listings == map[]
    {
      listings, prefetched, cache := map[], {}, map[];
    }
  }

  /** `full` is the object of one of the paths under the prefix. */
  predicate IsUnderAny(full: string, prefix: string, paths: set<string>) {
    exists path :: path in paths && FullPath(prefix, path) == full
  }

  predicate IsUnder(full: string, prefix: string) {
    |prefix| + 1 <= |full| && full[..|prefix| + 1] == prefix + "/"
  }

  /** Why the reader must be refreshed: an object published after the listing was taken is
      reported missing, and only then does the answer differ from a direct read. */
  method StaleListing(bucket: Bucket, prefix: string, path: string, content: Bytes)
    returns (before: Result<Bytes, Error>, after: Result<Bytes, Error>, refreshed: Result<Bytes, Error>)
    requires FullPath(prefix, path) !in bucket.objects
    modifies bucket
    ensures before == Err(Missing) && after == Err(Missing) && refreshed == Ok(content)
    ensures Lookup(bucket.objects, FullPath(prefix, path)) == Some(content)
  {
    var reader := new Reader(bucket);
    before := reader.ReadBytes(prefix, path);
    bucket.Publish(map[FullPath(prefix, path) := content]);
    after := reader.ReadBytes(prefix, path);
    reader.Refresh();
    refreshed := reader.ReadBytes(prefix, path);
  }
}
