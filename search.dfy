/**
 * backend/searchItems: label the uploaded image, then walk the `found-items` listing,
 * label every stored image and keep those that share enough label names with it.
 * The label detector, the object reads and the image conversion are parameters.
 */
module Search {
  import opened Common
  import opened Text
  import Catalog

  /** One detected label; the confidence takes part in no decision. */
  datatype Label = Label(name: string, confidence: real)

  /** `{'Image': key, 'Labels': found_labels}`. */
  datatype Match = Match(image: string, labels: seq<Label>)

  /** `get_object(...)['Body'].read()`, or a call that throws. */
  datatype FetchResult = Fetched(bytes: Bytes) | FetchThrew

  /** `detect_labels`, or a call that throws. */
  datatype DetectResult = Detected(labels: seq<Label>) | DetectThrew

  /** How many common label names make a match. */
  const Threshold := 2

  function Names(labels: seq<Label>): (r: set<string>)
    ensures forall l :: l in labels ==> l.name in r
    ensures forall n :: n in r ==> exists l :: l in labels && l.name == n
  {
    set l | l in labels :: l.name
  }

  /** check_labels_match */
  predicate LabelsMatch(uploaded: seq<Label>, found: seq<Label>)
  {
    |Names(uploaded) * Names(found)| >= Threshold
  }

  /** A match means two different names that both label lists carry. */
  lemma LabelsMatchIff(uploaded: seq<Label>, found: seq<Label>)
    ensures LabelsMatch(uploaded, found) <==>
            exists a, b :: a in Names(uploaded) * Names(found) && b in Names(uploaded) * Names(found) && a != b
  {
    var common := Names(uploaded) * Names(found);
    if |common| >= 2 {
      var a :| a in common;
      assert |common - {a}| >= 1;
      var b :| b in common - {a};
      assert a in common && b in common && a != b;
    }
    if exists a, b :: a in common && b in common && a != b {
      var a, b :| a in common && b in common && a != b;
      SubsetCard({a, b}, common);
    }
  }

  /** The result depends on label names only, not on confidences or repeated names. */
  lemma LabelsMatchByNames(u1: seq<Label>, f1: seq<Label>, u2: seq<Label>, f2: seq<Label>)
    requires Names(u1) == Names(u2) && Names(f1) == Names(f2)
    ensures LabelsMatch(u1, f1) == LabelsMatch(u2, f2)
  {
  }

  lemma LabelsMatchSymmetric(uploaded: seq<Label>, found: seq<Label>)
    ensures LabelsMatch(uploaded, found) == LabelsMatch(found, uploaded)
  {
    assert Names(uploaded) * Names(found) == Names(found) * Names(uploaded);
  }

  /**
   * The loop of compare_with_found_items over the listed keys: keys ending in '/' and
   * empty objects are skipped, and an exception ends the walk keeping what was gathered.
   */
  function Scan(uploaded: seq<Label>, keys: seq<string>,
                fetch: string -> FetchResult, detect: Bytes -> DetectResult): seq<Match>
    decreases |keys|
  {
    if keys == [] then []
    else
      var key, rest := keys[0], keys[1..];
      if EndsWith(key, "/") then Scan(uploaded, rest, fetch, detect)
      else match fetch(key)
        case FetchThrew => []
        case Fetched(bytes) =>
          if bytes == [] then Scan(uploaded, rest, fetch, detect)
          else match detect(bytes)
            case DetectThrew => []
            case Detected(found) =>
              (if LabelsMatch(uploaded, found) then [Match(key, found)] else [])
              + Scan(uploaded, rest, fetch, detect)
  }

  /** Key `key` gets through the skips and its labels are `found`. */
  predicate Accepted(uploaded: seq<Label>, key: string, found: seq<Label>,
                     fetch: string -> FetchResult, detect: Bytes -> DetectResult)
  {
    && !EndsWith(key, "/")
    && fetch(key).Fetched? && fetch(key).bytes != []
    && detect(fetch(key).bytes) == Detected(found)
    && LabelsMatch(uploaded, found)
  }

  /** Every match names a listed, non-directory, non-empty object whose labels match. */
  lemma {:induction false} ScanSound(uploaded: seq<Label>, keys: seq<string>,
                                     fetch: string -> FetchResult, detect: Bytes -> DetectResult, m: Match)
    requires m in Scan(uploaded, keys, fetch, detect)
    ensures m.image in keys
    ensures Accepted(uploaded, m.image, m.labels, fetch, detect)
    decreases |keys|
  {
    var rest := keys[1..];
    var tail := Scan(uploaded, rest, fetch, detect);
    if m in tail {
      ScanSound(uploaded, rest, fetch, detect, m);
    }
  }

  /** The keys of `matches`, in order. */
  function Images(matches: seq<Match>): (r: seq<string>)
    ensures |r| == |matches|
    ensures forall i :: 0 <= i < |matches| ==> r[i] == matches[i].image
  {
    seq(|matches|, i requires 0 <= i < |matches| => matches[i].image)
  }

  /** `xs` is `ys` with some elements left out and the rest in their order. */
  predicate Subsequence(xs: seq<string>, ys: seq<string>)
    decreases |ys|
  {
    if xs == [] then true
    else if ys == [] then false
    else (xs[0] == ys[0] && Subsequence(xs[1..], ys[1..])) || Subsequence(xs, ys[1..])
  }

  /** Matches keep listing order. */
  lemma {:induction false} ScanKeepsOrder(uploaded: seq<Label>, keys: seq<string>,
                                          fetch: string -> FetchResult, detect: Bytes -> DetectResult)
    ensures Subsequence(Images(Scan(uploaded, keys, fetch, detect)), keys)
    decreases |keys|
  {
    if keys != [] {
      var rest := keys[1..];
      var tail := Scan(uploaded, rest, fetch, detect);
      ScanKeepsOrder(uploaded, rest, fetch, detect);
      var all := Scan(uploaded, keys, fetch, detect);
      if all == [] {
      } else if all == tail {
        assert keys[1..] == rest;
      } else {
        assert all == [Match(keys[0], all[0].labels)] + tail;
        assert Images(all)[1..] == Images(tail);
      }
    }
  }

  /** No object read and no label detection throws for any listed key. */
  predicate NoThrow(keys: seq<string>, fetch: string -> FetchResult, detect: Bytes -> DetectResult)
  {
    forall k :: k in keys && !EndsWith(k, "/") ==>
      fetch(k).Fetched? && (fetch(k).bytes != [] ==> detect(fetch(k).bytes).Detected?)
  }

  /** Without exceptions the walk misses no matching object. */
  lemma {:induction false} ScanComplete(uploaded: seq<Label>, keys: seq<string>,
                                        fetch: string -> FetchResult, detect: Bytes -> DetectResult,
                                        key: string, found: seq<Label>)
    requires NoThrow(keys, fetch, detect)
    requires key in keys && Accepted(uploaded, key, found, fetch, detect)
    ensures Match(key, found) in Scan(uploaded, keys, fetch, detect)
    decreases |keys|
  {
    var rest := keys[1..];
    if key != keys[0] {
      assert key in rest;
      ScanComplete(uploaded, rest, fetch, detect, key, found);
    }
  }

  /** Reading key `key`, or detecting labels in what was read, throws. */
  predicate Throws(key: string, fetch: string -> FetchResult, detect: Bytes -> DetectResult)
  {
    && !EndsWith(key, "/")
    && (fetch(key).FetchThrew? || (fetch(key).bytes != [] && detect(fetch(key).bytes).DetectThrew?))
  }

  /** A matching key met before any exception is among the matches, whatever follows it. */
  lemma {:induction false} ScanCompleteBeforeThrow(uploaded: seq<Label>, keys: seq<string>,
                                                   fetch: string -> FetchResult, detect: Bytes -> DetectResult,
                                                   i: nat, found: seq<Label>)
    requires i < |keys| && NoThrow(keys[..i + 1], fetch, detect)
    requires Accepted(uploaded, keys[i], found, fetch, detect)
    ensures Match(keys[i], found) in Scan(uploaded, keys, fetch, detect)
    decreases i
  {
    if i > 0 {
      var rest := keys[1..];
      assert keys[0] in keys[..i + 1];
      assert rest[..i] == keys[1..i + 1];
      assert NoThrow(rest[..i], fetch, detect) by {
        forall k | k in rest[..i] ensures k in keys[..i + 1] {
          var j :| 0 <= j < i && rest[..i][j] == k;
          assert keys[..i + 1][j + 1] == k;
        }
      }
      ScanCompleteBeforeThrow(uploaded, rest, fetch, detect, i - 1, found);
    }
  }

  /** An exception at key `j` ends the walk: the matches are those gathered before it. */
  lemma {:induction false} ScanStopsAtThrow(uploaded: seq<Label>, keys: seq<string>,
                                            fetch: string -> FetchResult, detect: Bytes -> DetectResult,
                                            j: nat)
    requires j < |keys| && Throws(keys[j], fetch, detect)
    ensures Scan(uploaded, keys, fetch, detect) == Scan(uploaded, keys[..j], fetch, detect)
    decreases j
  {
    if j > 0 {
      var rest := keys[1..];
      assert keys[..j][0] == keys[0] && keys[..j][1..] == rest[..j - 1];
      ScanStopsAtThrow(uploaded, rest, fetch, detect, j - 1);
    }
  }

  /** compare_with_found_items. A listing without `Contents` gives no matches. */
  method CompareWithFoundItems(uploaded: seq<Label>, listing: Catalog.ListReply,
                               fetch: string -> FetchResult, detect: Bytes -> DetectResult)
    returns (matches: seq<Match>)
    ensures listing.Listed? && listing.contents.Some? ==>
              matches == Scan(uploaded, Catalog.KeysOf(listing.contents.value), fetch, detect)
    ensures !(listing.Listed? && listing.contents.Some?) ==> matches == []
  {
    matches := [];
    if listing.ListThrew? || listing.contents.None? {
      return;
    }
    var keys := Catalog.KeysOf(listing.contents.value);
    var i := 0;
    while i < |keys|
      invariant 0 <= i <= |keys|
      invariant matches + Scan(uploaded, keys[i..], fetch, detect) == Scan(uploaded, keys, fetch, detect)
    {
      var key := keys[i];
      assert keys[i..][0] == key && keys[i..][1..] == keys[i + 1..];
      if EndsWith(key, "/") {
        i := i + 1;
        continue;
      }
      var got := fetch(key);
      if got.FetchThrew? {
        return;
      }
      if got.bytes == [] {
        i := i + 1;
        continue;
      }
      var labelled := detect(got.bytes);
      if labelled.DetectThrew? {
        return;
      }
      if LabelsMatch(uploaded, labelled.labels) {
        matches := matches + [Match(key, labelled.labels)];
      }
      i := i + 1;
    }
  }

  /** The handler's body: the matches, a message, or an exception's report. */
  datatype SearchBody = Matches(matches: seq<Match>) | Note(text: string) | Failed

  /**
   * lambda_handler. `decoded` is the base64-decoded request body (`None` when decoding
   * throws); `convert` is the image re-encoding to JPEG (`None` when it throws).
   */
  method LambdaHandler(decoded: Option<Bytes>, convert: Bytes -> Option<Bytes>,
                       detect: Bytes -> DetectResult, listing: Catalog.ListReply,
                       fetch: string -> FetchResult)
    returns (r: Response<SearchBody>)
    ensures decoded == Some([]) ==> r == Response(400, Note("Received empty image data"))
    ensures decoded.Some? && decoded.value != [] && convert(decoded.value) == Some([])
            ==> r == Response(400, Note("Processed image binary is empty"))
    ensures r.statusCode == 200 <==>
              && decoded.Some? && decoded.value != []
              && convert(decoded.value).Some? && convert(decoded.value).value != []
              && detect(convert(decoded.value).value).Detected?
    ensures r.statusCode == 400 <==>
              || decoded == Some([])
              || (decoded.Some? && decoded.value != [] && convert(decoded.value) == Some([]))
    ensures r.statusCode == 200 ==>
              r.body == Matches(if listing.Listed? && listing.contents.Some?
                                then Scan(detect(convert(decoded.value).value).labels,
                                          Catalog.KeysOf(listing.contents.value), fetch, detect)
                                else [])
    ensures r.statusCode == 200 ==>
              r.body.Matches? && forall m :: m in r.body.matches ==>
                LabelsMatch(detect(convert(decoded.value).value).labels, m.labels)
    ensures r.statusCode !in {200, 400} ==> r == Response(500, Failed)
  {
    if decoded.None? {
      return Response(500, Failed);
    }
    var image := decoded.value;
    if image == [] {
      return Response(400, Note("Received empty image data"));
    }
    var converted := convert(image);
    if converted.None? {
      return Response(500, Failed);
    }
    if converted.value == [] {
      return Response(400, Note("Processed image binary is empty"));
    }
    var labelled := detect(converted.value);
    if labelled.DetectThrew? {
      return Response(500, Failed);
    }
    var matches := CompareWithFoundItems(labelled.labels, listing, fetch, detect);
    if listing.Listed? && listing.contents.Some? {
      forall m | m in matches ensures LabelsMatch(labelled.labels, m.labels) {
        ScanSound(labelled.labels, Catalog.KeysOf(listing.contents.value), fetch, detect, m);
      }
    }
    r := Response(200, Matches(matches));
  }
}
