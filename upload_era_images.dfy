/**
 * The image upload script: the upload record (keyed by the image's path
 * relative to the resources directory), its statistics, the list of
 * images to upload (size-limited and sorted by path), the skip of images
 * already uploaded, the batched upload run, and the retry of failures.
 */
module UploadEraImages {
  import opened Wrappers
  import opened Text
  import opened Batching

  /** Discord's attachment limit: 8 MiB. */
  const MaxFileSize: nat := 8 * 1024 * 1024

  const BatchSize: nat := 10

  datatype Status = Success | Failed | Skipped

  datatype ImageRecord = ImageRecord(filename: string, url: string, status: Status, error: Option<string>,
                                     uploadedAt: Option<string>, fileSize: nat)

  /** An image found on disk: its path relative to the resources directory, part by part, and its size in bytes. */
  datatype Image = Image(parts: seq<string>, size: nat)

  /** `str(path)`: the parts joined with "/". */
  function RelativePath(img: Image): string {
    Join(img.parts, "/")
  }

  // ---------------------------------------------------------------------
  // Path order

  /** Python's `a < b` on strings: code point by code point, a proper prefix first. */
  predicate StrLess(a: string, b: string) {
    if a == [] then b != []
    else if b == [] then false
    else if a[0] != b[0] then a[0] < b[0]
    else StrLess(a[1..], b[1..])
  }

  lemma {:induction false} StrLessTotal(a: string, b: string)
    ensures a == b || StrLess(a, b) || StrLess(b, a)
    ensures !(StrLess(a, b) && StrLess(b, a))
  {
    if a != [] && b != [] && a[0] == b[0] {
      StrLessTotal(a[1..], b[1..]);
      if a[1..] == b[1..] {
        assert a == [a[0]] + a[1..] && b == [b[0]] + b[1..];
      }
    }
  }

  /** `PurePath.__lt__`: the lists of parts compared element by element. */
  predicate PathLess(p: seq<string>, q: seq<string>) {
    if p == [] then q != []
    else if q == [] then false
    else if p[0] != q[0] then StrLess(p[0], q[0])
    else PathLess(p[1..], q[1..])
  }

  lemma {:induction false} PathLessTotal(p: seq<string>, q: seq<string>)
    ensures p == q || PathLess(p, q) || PathLess(q, p)
  {
    if p != [] && q != [] {
      if p[0] != q[0] {
        StrLessTotal(p[0], q[0]);
      } else {
        PathLessTotal(p[1..], q[1..]);
        if p[1..] == q[1..] {
          assert p == [p[0]] + p[1..] && q == [q[0]] + q[1..];
        }
      }
    }
  }

  predicate PathLe(a: Image, b: Image) {
    a.parts == b.parts || PathLess(a.parts, b.parts)
  }

  predicate SortedByPath(s: seq<Image>) {
    forall i :: 0 <= i < |s| - 1 ==> PathLe(s[i], s[i + 1])
  }

  function Insert(x: Image, s: seq<Image>): (r: seq<Image>)
    ensures |r| == |s| + 1
    ensures r[0] == x || (s != [] && r[0] == s[0])
  {
    if s == [] then [x]
    else if PathLe(x, s[0]) then [x] + s
    else [s[0]] + Insert(x, s[1..])
  }

  lemma {:induction false} InsertSorted(x: Image, s: seq<Image>)
    requires SortedByPath(s)
    ensures SortedByPath(Insert(x, s))
    ensures multiset(Insert(x, s)) == multiset(s) + multiset{x}
  {
    if s != [] && !PathLe(x, s[0]) {
      InsertSorted(x, s[1..]);
      PathLessTotal(x.parts, s[0].parts);
      var rest := Insert(x, s[1..]);
      assert PathLe(s[0], rest[0]);
      assert s == [s[0]] + s[1..];
    }
  }

  /** `sorted(...)` by path. */
  function SortByPath(s: seq<Image>): (r: seq<Image>)
    ensures |r| == |s|
  {
    if s == [] then [] else Insert(s[0], SortByPath(s[1..]))
  }

  /** The sorted list is ordered by path and holds exactly the same images. */
  lemma {:induction false} SortByPathCorrect(s: seq<Image>)
    ensures SortedByPath(SortByPath(s))
    ensures multiset(SortByPath(s)) == multiset(s)
  {
    if s != [] {
      SortByPathCorrect(s[1..]);
      InsertSorted(s[0], SortByPath(s[1..]));
      assert s == [s[0]] + s[1..];
    }
  }

  // ---------------------------------------------------------------------
  // get_all_images

  /** The images within the size limit, in the order found. */
  function WithinLimit(found: seq<Image>): (r: seq<Image>)
    ensures |r| <= |found|
    ensures forall k :: 0 <= k < |r| ==> r[k].size <= MaxFileSize
  {
    if found == [] then []
    else WithinLimit(found[..|found| - 1]) + if found[|found| - 1].size <= MaxFileSize then [found[|found| - 1]] else []
  }

  /** An image is kept exactly when it is at most 8 MiB, and each is kept as often as it was found. */
  lemma {:induction false} WithinLimitExactly(found: seq<Image>)
    ensures forall img :: multiset(WithinLimit(found))[img] == if img.size <= MaxFileSize then multiset(found)[img] else 0
  {
    if found != [] {
      WithinLimitExactly(found[..|found| - 1]);
      assert found == found[..|found| - 1] + [found[|found| - 1]];
    }
  }

  // ---------------------------------------------------------------------
  // The upload record

  predicate IsUploaded(records: map<string, ImageRecord>, filename: string) {
    filename in records && records[filename].status == Success
  }

  /** The images not yet uploaded, in list order. */
  function ToUpload(images: seq<Image>, records: map<string, ImageRecord>): (r: seq<Image>)
    ensures |r| <= |images|
  {
    if images == [] then []
    else
      var img := images[|images| - 1];
      ToUpload(images[..|images| - 1], records) + if IsUploaded(records, RelativePath(img)) then [] else [img]
  }

  function SkippedCount(images: seq<Image>, records: map<string, ImageRecord>): (r: nat)
    ensures r <= |images|
  {
    if images == [] then 0
    else SkippedCount(images[..|images| - 1], records) + if IsUploaded(records, RelativePath(images[|images| - 1])) then 1 else 0
  }

  /** Every image is either skipped (already uploaded) or queued, never both. */
  lemma {:induction false} SkipOrQueue(images: seq<Image>, records: map<string, ImageRecord>)
    ensures SkippedCount(images, records) + |ToUpload(images, records)| == |images|
    ensures forall k :: 0 <= k < |ToUpload(images, records)| ==>
      !IsUploaded(records, RelativePath(ToUpload(images, records)[k])) && ToUpload(images, records)[k] in images
  {
    if images != [] {
      SkipOrQueue(images[..|images| - 1], records);
    }
  }

  /** The record of one upload attempt: success with its URL, or failure with its error text. */
  function RecordFor(img: Image, send: string -> Result<string, string>, now: string): (r: ImageRecord)
    ensures r.filename == RelativePath(img)
    ensures r.status == Success <==> send(RelativePath(img)).Ok?
    ensures r.status == Success ==> r.url == send(RelativePath(img)).value && r.fileSize == img.size
    ensures r.status != Success ==> r.status == Failed && r.url == "" && r.fileSize == 0
  {
    match send(RelativePath(img))
    case Ok(url) => ImageRecord(RelativePath(img), url, Success, None, Some(now), img.size)
    case Err(e) => ImageRecord(RelativePath(img), "", Failed, Some(e), None, 0)
  }

  function Uploaded(records: map<string, ImageRecord>, imgs: seq<Image>, send: string -> Result<string, string>,
                    now: string): (r: map<string, ImageRecord>)
    ensures records.Keys <= r.Keys
    ensures forall i :: 0 <= i < |imgs| ==> RelativePath(imgs[i]) in r
  {
    if imgs == [] then records
    else
      var img := imgs[|imgs| - 1];
      Uploaded(records, imgs[..|imgs| - 1], send, now)[RelativePath(img) := RecordFor(img, send, now)]
  }

  function SuccessCount(imgs: seq<Image>, send: string -> Result<string, string>): (r: nat)
    ensures r <= |imgs|
  {
    if imgs == [] then 0
    else SuccessCount(imgs[..|imgs| - 1], send) + if send(RelativePath(imgs[|imgs| - 1])).Ok? then 1 else 0
  }

  /** One more image: the records and the success count after it, from those before it. */
  lemma UploadedStep(records: map<string, ImageRecord>, imgs: seq<Image>, i: nat,
                     send: string -> Result<string, string>, now: string,
                     before: map<string, ImageRecord>, after: map<string, ImageRecord>, up0: nat, upBefore: nat, upAfter: nat)
    requires i < |imgs|
    requires before == Uploaded(records, imgs[..i], send, now)
    requires after == before[RelativePath(imgs[i]) := RecordFor(imgs[i], send, now)]
    requires upBefore == up0 + SuccessCount(imgs[..i], send)
    requires upAfter == upBefore + if send(RelativePath(imgs[i])).Ok? then 1 else 0
    ensures after == Uploaded(records, imgs[..i + 1], send, now)
    ensures upAfter == up0 + SuccessCount(imgs[..i + 1], send)
  {
    assert imgs[..i + 1][..i] == imgs[..i];
  }

  /** Every record is stored under its own file name. */
  ghost predicate KeyedByFilename(records: map<string, ImageRecord>) {
    forall k :: k in records ==> records[k].filename == k
  }

  /** An upload run keeps every record under its own file name, and each attempted image ends with its own record. */
  lemma {:induction false} UploadedKeyed(records: map<string, ImageRecord>, imgs: seq<Image>,
                                         send: string -> Result<string, string>, now: string)
    requires KeyedByFilename(records)
    ensures KeyedByFilename(Uploaded(records, imgs, send, now))
    ensures forall n :: n in records ==> n in Uploaded(records, imgs, send, now)
  {
    if imgs != [] {
      UploadedKeyed(records, imgs[..|imgs| - 1], send, now);
    }
  }

  function CountStatus(records: map<string, ImageRecord>, keys: set<string>, s: Status): nat
    requires keys <= records.Keys
  {
    |set k | k in keys && records[k].status == s|
  }

  lemma CountStatusStep(records: map<string, ImageRecord>, keys: set<string>, k: string, s: Status)
    requires keys <= records.Keys && k in records && k !in keys
    ensures CountStatus(records, keys + {k}, s) == CountStatus(records, keys, s) + if records[k].status == s then 1 else 0
  {
    var before := set x | x in keys && records[x].status == s;
    var after := set x | x in keys + {k} && records[x].status == s;
    if records[k].status == s {
      assert after == before + {k};
    } else {
      assert after == before;
    }
  }

  class ImageUploadRecord {
    var records: map<string, ImageRecord>
    /** The records as last written to the record file. */
    var saved: map<string, ImageRecord>

    ghost predicate Valid()
      reads this
    {
      KeyedByFilename(records)
    }

    /** The records loaded from the record file (an unreadable file loads none). */
    constructor (loaded: map<string, ImageRecord>)
      requires KeyedByFilename(loaded)
      ensures Valid() && records == loaded && saved == loaded
    {
      records := loaded;
      saved := loaded;
    }

    /** `is_uploaded`. */
    function IsUploadedFile(filename: string): (r: bool)
      reads this
      ensures r <==> filename in records && records[filename].status == Success
    {
      IsUploaded(records, filename)
    }

    /** `get_url`: only a successful record has a URL. */
    function GetUrl(filename: string): (r: Option<string>)
      reads this
      ensures r.Some? <==> IsUploaded(records, filename)
      ensures r.Some? ==> r.value == records[filename].url
    {
      if filename in records && records[filename].status == Success then Some(records[filename].url) else None
    }

    /** `add_record`: keyed by the record's file name, replacing any earlier record. */
    method AddRecord(r: ImageRecord)
      modifies this
      ensures records == old(records)[r.filename := r] && saved == old(saved)
    {
      records := records[r.filename := r];
    }

    method Save()
      modifies this
      ensures saved == records && records == old(records)
    {
      saved := records;
    }

    /** `get_stats`: one count per status, and the number of records. */
    method GetStats() returns (success: nat, failed: nat, skipped: nat, total: nat)
      ensures total == |records|
      ensures success == CountStatus(records, records.Keys, Success)
      ensures failed == CountStatus(records, records.Keys, Failed)
      ensures skipped == CountStatus(records, records.Keys, Skipped)
      ensures success + failed + skipped == total
    {
      success, failed, skipped, total := 0, 0, 0, |records|;
      var done: set<string> := {};
      var remaining := records.Keys;
      while remaining != {}
        invariant done + remaining == records.Keys && done !! remaining
        invariant success == CountStatus(records, done, Success)
        invariant failed == CountStatus(records, done, Failed)
        invariant skipped == CountStatus(records, done, Skipped)
        invariant success + failed + skipped == |done|
        decreases |remaining|
      {
        var k :| k in remaining;
        CountStatusStep(records, done, k, Success);
        CountStatusStep(records, done, k, Failed);
        CountStatusStep(records, done, k, Skipped);
        match records[k].status {
          case Success => success := success + 1;
          case Failed => failed := failed + 1;
          case Skipped => skipped := skipped + 1;
        }
        assert (done + {k}) + (remaining - {k}) == done + remaining;
        done := done + {k};
        remaining := remaining - {k};
      }
      assert done == records.Keys;
      assert |records| == |records.Keys|;
    }
  }

  /** The uploader: its record, and the counters of the current run. */
  class ImageUploader {
    const record: ImageUploadRecord
    var uploaded: nat
    var skipped: nat
    var failed: nat
    var total: nat

    constructor (record: ImageUploadRecord)
      ensures this.record == record && uploaded == 0 && skipped == 0 && failed == 0 && total == 0
    {
      this.record := record;
      uploaded, skipped, failed, total := 0, 0, 0, 0;
    }

    /**
     * `get_all_images`: the images the directory search finds within the size
     * limit, sorted by path. `search(true)` is the recursive search of the
     * resources directory, `search(false)` the search of its top level only.
     */
    method GetAllImages(search: bool -> seq<Image>, recursive: bool) returns (images: seq<Image>)
      ensures images == SortByPath(WithinLimit(search(recursive)))
    {
      var found := search(recursive);
      var valid: seq<Image> := [];
      var i := 0;
      while i < |found|
        invariant 0 <= i <= |found|
        invariant valid == WithinLimit(found[..i])
      {
        assert found[..i + 1][..i] == found[..i];
        if found[i].size <= MaxFileSize {
          valid := valid + [found[i]];
        }
        i := i + 1;
      }
      assert found[..|found|] == found;
      images := SortByPath(valid);
    }

    /** The loop over the images: already uploaded ones are counted as skipped, the rest are queued. */
    method SplitUploaded(images: seq<Image>) returns (toUpload: seq<Image>)
      modifies this
      ensures toUpload == ToUpload(images, record.records)
      ensures skipped == old(skipped) + SkippedCount(images, record.records)
      ensures uploaded == old(uploaded) && failed == old(failed) && total == old(total)
    {
      toUpload := [];
      var i := 0;
      while i < |images|
        invariant 0 <= i <= |images|
        invariant toUpload == ToUpload(images[..i], record.records)
        invariant skipped == old(skipped) + SkippedCount(images[..i], record.records)
        invariant uploaded == old(uploaded) && failed == old(failed) && total == old(total)
      {
        assert images[..i + 1][..i] == images[..i];
        if record.IsUploadedFile(RelativePath(images[i])) {
          skipped := skipped + 1;
        } else {
          toUpload := toUpload + [images[i]];
        }
        i := i + 1;
      }
      assert images[..|images|] == images;
    }

    /** One image: its record is added and the counter of its outcome goes up. */
    method UploadOne(img: Image, send: string -> Result<string, string>, now: string) returns (ok: bool)
      modifies this, record
      ensures record.saved == old(record.saved)
      ensures record.records == old(record.records)[RelativePath(img) := RecordFor(img, send, now)]
      ensures ok <==> send(RelativePath(img)).Ok?
      ensures uploaded == old(uploaded) + (if ok then 1 else 0) && failed == old(failed) + (if ok then 0 else 1)
      ensures skipped == old(skipped) && total == old(total)
    {
      var r := RecordFor(img, send, now);
      record.AddRecord(r);
      ok := r.status == Success;
      if ok {
        uploaded := uploaded + 1;
      } else {
        failed := failed + 1;
      }
    }

    /** One batch: `todo[i..end]`, each sent and recorded. */
    method UploadBatch(todo: seq<Image>, i: nat, end: nat, ghost base: map<string, ImageRecord>,
                       ghost up0: nat, send: string -> Result<string, string>, now: string)
      requires KeyedByFilename(base)
      requires i <= end <= |todo|
      requires record.records == Uploaded(base, todo[..i], send, now)
      requires uploaded == up0 + SuccessCount(todo[..i], send)
      modifies this, record
      ensures record.Valid() && record.saved == old(record.saved)
      ensures record.records == Uploaded(base, todo[..end], send, now)
      ensures uploaded == up0 + SuccessCount(todo[..end], send)
      ensures uploaded + failed == old(uploaded) + old(failed) + (end - i)
      ensures skipped == old(skipped) && total == old(total)
    {
      var j := i;
      while j < end
        invariant i <= j <= end
        invariant record.saved == old(record.saved)
        invariant record.records == Uploaded(base, todo[..j], send, now)
        invariant uploaded == up0 + SuccessCount(todo[..j], send)
        invariant uploaded + failed == old(uploaded) + old(failed) + (j - i)
        invariant skipped == old(skipped) && total == old(total)
      {
        ghost var before, upBefore := record.records, uploaded;
        var _ := UploadOne(todo[j], send, now);
        UploadedStep(base, todo, j, send, now, before, record.records, up0, upBefore, uploaded);
        j := j + 1;
      }
      UploadedKeyed(base, todo[..end], send, now);
    }

    /** The batch loop, saving the record after each batch. */
    method UploadQueued(todo: seq<Image>, send: string -> Result<string, string>, now: string)
      requires record.Valid() && todo != []
      modifies this, record
      ensures record.Valid()
      ensures record.records == Uploaded(old(record.records), todo, send, now) && record.saved == record.records
      ensures uploaded == old(uploaded) + SuccessCount(todo, send)
      ensures uploaded + failed == old(uploaded) + old(failed) + |todo|
      ensures skipped == old(skipped) && total == old(total)
    {
      ghost var base := record.records;
      ghost var up0 := uploaded;
      ghost var b := 0;
      var i := 0;
      while i < |todo|
        invariant 0 <= i <= |todo|
        invariant record.Valid()
        invariant record.records == Uploaded(base, todo[..i], send, now)
        invariant uploaded == up0 + SuccessCount(todo[..i], send)
        invariant uploaded + failed == old(uploaded) + old(failed) + i
        invariant skipped == old(skipped) && total == old(total)
        invariant i > 0 ==> record.saved == record.records
        invariant i == |todo| || i == b * BatchSize
        decreases |todo| - i
      {
        var end := Min(i + BatchSize, |todo|);
        NextBatch(todo, BatchSize, b, i);
        assert todo[i..end] == Batches(todo, BatchSize)[b];
        UploadBatch(todo, i, end, base, up0, send, now);
        record.Save();
        i := end;
        b := b + 1;
      }
      assert todo[..|todo|] == todo;
    }

    /**
     * `upload_all`: list the images (recursively or from the top level only,
     * as `recursive` says), skip the uploaded ones, and upload the rest in
     * batches if the channel exists.
     */
    method UploadAll(recursive: bool, search: bool -> seq<Image>, channelFound: bool,
                     send: string -> Result<string, string>, now: string)
      requires record.Valid()
      modifies this, record
      ensures record.Valid()
      ensures var images := SortByPath(WithinLimit(search(recursive)));
        var todo := ToUpload(images, old(record.records));
        total == |images| && skipped == old(skipped) + SkippedCount(images, old(record.records))
        && (if todo == [] || !channelFound then
              record.records == old(record.records) && record.saved == old(record.saved)
              && uploaded == old(uploaded) && failed == old(failed)
            else
              record.records == Uploaded(old(record.records), todo, send, now) && record.saved == record.records
              && uploaded == old(uploaded) + SuccessCount(todo, send)
              && uploaded + failed == old(uploaded) + old(failed) + |todo|)
    {
      var images := GetAllImages(search, recursive);
      total := |images|;
      var todo := SplitUploaded(images);
      if todo == [] || !channelFound {
        return;
      }
      UploadQueued(todo, send, now);
    }

    /** `retry_failed`, before the new run: every failed record is deleted and the record saved. */
    method ResetFailed() returns (any: bool)
      requires record.Valid()
      modifies record
      ensures record.Valid()
      ensures any <==> exists k :: k in old(record.records) && old(record.records)[k].status == Failed
      ensures record.records == map k | k in old(record.records) && old(record.records)[k].status != Failed :: old(record.records)[k]
      ensures any ==> record.saved == record.records
      ensures !any ==> record.saved == old(record.saved)
    {
      var failedNames := set k | k in record.records && record.records[k].status == Failed;
      any := failedNames != {};
      if !any {
        forall k | k in record.records
          ensures record.records[k].status != Failed
        {
          assert k !in failedNames;
        }
        return;
      }
      var someFailed :| someFailed in failedNames;
      var remaining := failedNames;
      while remaining != {}
        invariant remaining <= failedNames
        invariant record.Valid()
        invariant record.saved == old(record.saved)
        invariant record.records == map k | k in old(record.records) && (k !in failedNames || k in remaining) :: old(record.records)[k]
        decreases |remaining|
      {
        var n :| n in remaining;
        record.records := map k | k in record.records && k != n :: record.records[k];
        remaining := remaining - {n};
      }
      record.Save();
    }
    /**
     * `retry_failed`: if any upload failed, forget the failures, save, and run
     * the upload again with its default, the top-level search only. A failure
     * recorded for an image only the recursive search finds is therefore
     * forgotten and not retried (`RetryForgetsNestedFailures`).
     */
    method RetryFailed(search: bool -> seq<Image>, channelFound: bool, send: string -> Result<string, string>, now: string)
      requires record.Valid()
      modifies this, record
      ensures record.Valid()
      ensures var kept := map k | k in old(record.records) && old(record.records)[k].status != Failed :: old(record.records)[k];
        var images := SortByPath(WithinLimit(search(false)));
        var todo := ToUpload(images, kept);
        if kept == old(record.records) then
          record.records == old(record.records) && record.saved == old(record.saved)
          && uploaded == old(uploaded) && failed == old(failed) && skipped == old(skipped) && total == old(total)
        else
          total == |images| && skipped == old(skipped) + SkippedCount(images, kept)
          && if todo == [] || !channelFound then
            record.records == kept && record.saved == kept && uploaded == old(uploaded) && failed == old(failed)
          else
            record.records == Uploaded(kept, todo, send, now) && record.saved == record.records
            && uploaded == old(uploaded) + SuccessCount(todo, send)
            && uploaded + failed == old(uploaded) + old(failed) + |todo|
    {
      var any := ResetFailed();
      if any {
        UploadAll(false, search, channelFound, send, now);
      }
    }
  }

  /** After the reset no failed record is left and every other record is kept, successes included. */
  lemma ResetRemovesExactlyFailed(records: map<string, ImageRecord>)
    ensures var after := map k | k in records && records[k].status != Failed :: records[k];
      (forall k :: k in after <==> k in records && records[k].status != Failed)
      && (forall k :: k in after ==> after[k] == records[k])
      && (forall k :: IsUploaded(after, k) <==> IsUploaded(records, k))
  {
  }

  /** An upload run adds records only for the images it attempts. */
  lemma {:induction false} UploadedOnlyAttempted(records: map<string, ImageRecord>, imgs: seq<Image>,
                                                 send: string -> Result<string, string>, now: string, name: string)
    requires name !in records
    requires forall i :: 0 <= i < |imgs| ==> RelativePath(imgs[i]) != name
    ensures name !in Uploaded(records, imgs, send, now)
  {
    if imgs != [] {
      UploadedOnlyAttempted(records, imgs[..|imgs| - 1], send, now, name);
    }
  }

  /**
   * The retry searches the top level only: a failed record whose image the
   * top-level search does not find (one in a sub-directory) is deleted by the
   * reset and not re-created by the new run, whether or not that run uploads.
   */
  lemma RetryForgetsNestedFailures(records: map<string, ImageRecord>, search: bool -> seq<Image>,
                                   send: string -> Result<string, string>, now: string, name: string)
    requires name in records && records[name].status == Failed
    requires forall i :: 0 <= i < |search(false)| ==> RelativePath(search(false)[i]) != name
    ensures var kept := map k | k in records && records[k].status != Failed :: records[k];
      var todo := ToUpload(SortByPath(WithinLimit(search(false))), kept);
      kept != records && name !in kept && name !in Uploaded(kept, todo, send, now)
  {
    var kept := map k | k in records && records[k].status != Failed :: records[k];
    var found := search(false);
    var images := SortByPath(WithinLimit(found));
    var todo := ToUpload(images, kept);
    SkipOrQueue(images, kept);
    SortByPathCorrect(WithinLimit(found));
    WithinLimitExactly(found);
    forall i | 0 <= i < |todo|
      ensures RelativePath(todo[i]) != name
    {
      var img := todo[i];
      assert img in multiset(images);
      assert img in multiset(found);
      var j :| 0 <= j < |found| && found[j] == img;
    }
    UploadedOnlyAttempted(kept, todo, send, now, name);
  }
}
