/** Chunked reading of evidence files: the search and rewrite of evidence.py and the
    credential scan of benchmark_bundle.py, each proved equal to the same operation on
    the whole file for every way the reads may cut it. */
module EvidenceFiles {
  import opened Redaction

  /** data[-n:], or nothing for n == 0. */
  function Last(data: Bytes, n: nat): (r: Bytes)
    ensures |r| == if |data| < n then |data| else n
    ensures data == data[..|data| - |r|] + r
  {
    if |data| < n then data else data[|data| - n..]
  }

  /** With enough of the past carried over, a new occurrence must lie in the window. */
  lemma WindowDecides(head: Bytes, carry: Bytes, chunk: Bytes, needle: Bytes)
    requires needle != []
    requires head == [] || |needle| <= |carry| + 1
    requires !Contains(head + carry, needle)
    ensures Contains(head + carry + chunk, needle) <==> Contains(carry + chunk, needle)
  {
    var whole, window := head + carry + chunk, carry + chunk;
    forall i | OccursAt(window, needle, i) ensures OccursAt(whole, needle, |head| + i) {
      assert whole[|head| + i..] == window[i..];
    }
    forall k | OccursAt(whole, needle, k) ensures OccursAt(window, needle, k - |head|) {
      if k < |head| {
        LaterBytesDoNotMatter(head + carry, chunk, needle, k);
      }
      assert whole[k..] == window[k - |head|..];
    }
  }

  lemma LastOfSuffix(head: Bytes, data: Bytes, n: nat)
    requires head == [] || n <= |data|
    ensures Last(head + data, n) == Last(data, n)
  {
    if head == [] {
      assert head + data == data;
    } else {
      DropConcat(head, data, |data| - n);
    }
  }

  lemma DropConcat(a: Bytes, b: Bytes, k: nat)
    requires k <= |b|
    ensures (a + b)[|a| + k..] == b[k..]
  {}

  /** The next window of a scan: what it shows, and what it carries on. */
  lemma CarryOn(whole: Bytes, carry: Bytes, chunk: Bytes, needle: Bytes, overlap: nat)
    requires needle != [] && |needle| <= overlap + 1
    requires carry == Last(whole, overlap) && !Contains(whole, needle)
    ensures Contains(whole + chunk, needle) <==> Contains(carry + chunk, needle)
    ensures Last(carry + chunk, overlap) == Last(whole + chunk, overlap)
  {
    CarryOnSplit(whole[..|whole| - |carry|], carry, chunk, needle, overlap);
    assert whole[..|whole| - |carry|] + carry == whole;
  }

  lemma CarryOnSplit(head: Bytes, carry: Bytes, chunk: Bytes, needle: Bytes, overlap: nat)
    requires needle != [] && |needle| <= overlap + 1
    requires head == [] || |carry| == overlap
    requires !Contains(head + carry, needle)
    ensures Contains(head + carry + chunk, needle) <==> Contains(carry + chunk, needle)
    ensures Last(carry + chunk, overlap) == Last(head + carry + chunk, overlap)
  {
    WindowDecides(head, carry, chunk, needle);
    LastOfSuffix(head, carry + chunk, overlap);
    assert head + carry + chunk == head + (carry + chunk);
  }

  lemma FindDecides(data: Bytes, needle: Bytes)
    ensures FindFrom(data, needle, 0) >= 0 <==> Contains(data, needle)
  {
    if FindFrom(data, needle, 0) >= 0 {
      assert OccursAt(data, needle, FindFrom(data, needle, 0));
    }
  }

  /** `_file_contains` */
  method FileContains(chunks: seq<Bytes>, needle: Bytes) returns (found: bool)
    requires needle != []
    ensures found <==> Contains(Flatten(chunks), needle)
  {
    var overlap := |needle| - 1;
    var carry: Bytes := [];
    for i := 0 to |chunks|
      invariant !Contains(Flatten(chunks[..i]), needle)
      invariant carry == Last(Flatten(chunks[..i]), overlap)
    {
      FlattenNext(chunks, i);
      found, carry := SearchChunk(needle, overlap, Flatten(chunks[..i]), chunks[i], carry);
      if found {
        FoundEarlier(chunks, i + 1, needle);
        return;
      }
    }
    assert chunks[..|chunks|] == chunks;
    found := false;
  }

  /** One read of `_file_contains`. */
  method SearchChunk(needle: Bytes, overlap: nat, ghost whole: Bytes, chunk: Bytes, carry: Bytes) returns (found: bool, left: Bytes)
    requires needle != [] && overlap == |needle| - 1 && !Contains(whole, needle) && carry == Last(whole, overlap)
    ensures found <==> Contains(whole + chunk, needle)
    ensures left == Last(whole + chunk, overlap)
  {
    CarryOn(whole, carry, chunk, needle, overlap);
    var data := carry + chunk;
    FindDecides(data, needle);
    found, left := FindFrom(data, needle, 0) >= 0, Last(data, overlap);
  }

  lemma {:induction false} FoundEarlier(chunks: seq<Bytes>, i: nat, needle: Bytes)
    requires i <= |chunks| && Contains(Flatten(chunks[..i]), needle)
    ensures Contains(Flatten(chunks), needle)
    decreases |chunks| - i
  {
    if i == |chunks| {
      assert chunks[..i] == chunks;
    } else {
      var whole := Flatten(chunks[..i]);
      var k :| OccursAt(whole, needle, k);
      FlattenNext(chunks, i);
      LaterBytesDoNotMatter(whole, chunks[i], needle, k);
      FoundEarlier(chunks, i + 1, needle);
    }
  }

  ghost predicate ContainsAny(data: Bytes, patterns: seq<Bytes>) {
    exists p :: p in patterns && Contains(data, p)
  }

  lemma CarryOnAny(whole: Bytes, tail: Bytes, chunk: Bytes, patterns: seq<Bytes>, overlap: nat)
    requires NonEmptySecrets(patterns) && overlap == Overlap(patterns)
    requires tail == Last(whole, overlap) && !ContainsAny(whole, patterns)
    ensures ContainsAny(whole + chunk, patterns) <==> ContainsAny(tail + chunk, patterns)
    ensures Last(tail + chunk, overlap) == Last(whole + chunk, overlap)
  {
    forall p | p in patterns ensures Contains(whole + chunk, p) <==> Contains(tail + chunk, p) {
      CarryOn(whole, tail, chunk, p, overlap);
    }
    if patterns != [] {
      assert patterns[0] in patterns;
      CarryOn(whole, tail, chunk, patterns[0], overlap);
    } else {
      assert Last(tail + chunk, 0) == [] == Last(whole + chunk, 0);
    }
  }

  /** The credential scan inside `_read_regular_file`: the file is refused exactly when it
      contains one of the patterns; otherwise what is written is the file. */
  method ReadRegularFile(chunks: seq<Bytes>, patterns: seq<Bytes>, hash: Bytes -> string)
    returns (refused: bool, digest: string, size: nat, output: Bytes)
    requires NonEmptySecrets(patterns)
    ensures refused <==> ContainsAny(Flatten(chunks), patterns)
    ensures !refused ==> output == Flatten(chunks) && size == |output| && digest == hash(output)
    ensures output <= Flatten(chunks)
  {
    var overlap := Overlap(patterns);
    var tail: Bytes := [];
    var hashed: Bytes := [];
    digest, size, output := "", 0, [];
    for i := 0 to |chunks|
      invariant !ContainsAny(Flatten(chunks[..i]), patterns)
      invariant tail == Last(Flatten(chunks[..i]), overlap)
      invariant output == hashed == Flatten(chunks[..i]) && size == |output|
    {
      FlattenNext(chunks, i);
      var scanned := tail + chunks[i];
      CarryOnAny(Flatten(chunks[..i]), tail, chunks[i], patterns, overlap);
      var hit := AnyFound(scanned, patterns);
      if hit {
        ghost var p :| p in patterns && Contains(Flatten(chunks[..i + 1]), p);
        FoundEarlier(chunks, i + 1, p);
        BeginningOfFile(chunks, i);
        return true, digest, size, output;
      }
      tail := Last(scanned, overlap);
      hashed, size, output := hashed + chunks[i], size + |chunks[i]|, output + chunks[i];
    }
    assert chunks[..|chunks|] == chunks;
    refused, digest := false, hash(hashed);
  }

  lemma {:induction false} BeginningOfFile(chunks: seq<Bytes>, i: nat)
    requires i <= |chunks|
    ensures Flatten(chunks[..i]) <= Flatten(chunks)
    decreases |chunks| - i
  {
    if i == |chunks| {
      assert chunks[..i] == chunks;
    } else {
      FlattenNext(chunks, i);
      BeginningOfFile(chunks, i + 1);
    }
  }

  /** any(pattern in scanned for pattern in patterns) */
  function AnyFound(data: Bytes, patterns: seq<Bytes>): (r: bool)
    ensures r <==> ContainsAny(data, patterns)
  {
    if patterns == [] then false else
      FindDecides(data, patterns[0]);
      assert forall p | p in patterns[1..] :: p in patterns;
      assert forall p | p in patterns :: p == patterns[0] || p in patterns[1..];
      FindFrom(data, patterns[0], 0) >= 0 || AnyFound(data, patterns[1..])
  }

  lemma NothingToRedact(data: Bytes, needle: Bytes)
    requires !Contains(data, needle)
    ensures Redact([needle], data) == data
  {
    SkipPlain([needle], data, |data|);
    assert data[|data|..] == [] && data[..|data|] == data;
  }

  lemma OneSecret(needle: Bytes)
    requires needle != []
    ensures NonEmptySecrets([needle]) && Overlap([needle]) == |needle| - 1
  {
    assert MaxLength([needle]) == |needle|;
  }

  /** `_scrub_file`: the file that results, and whether it changed. */
  method ScrubFile(chunks: seq<Bytes>, needle: Bytes) returns (changed: bool, content: Bytes)
    requires needle != []
    ensures changed <==> Contains(Flatten(chunks), needle)
    ensures content == Redact([needle], Flatten(chunks))
  {
    var present := FileContains(chunks, needle);
    if !present {
      NothingToRedact(Flatten(chunks), needle);
      return false, Flatten(chunks);
    }
    OneSecret(needle);
    ghost var redact := Redactor([needle]);
    changed := false;
    var output, carry: Bytes := [], [];
    assert Splits(redact, [], output, carry, false) by { SplitsNothing(redact, []); }
    for i := 0 to |chunks|
      invariant Splits(redact, Flatten(chunks[..i]), output, carry, false)
      invariant |carry| < |needle|
      invariant !changed ==> carry == Last(Flatten(chunks[..i]), |needle| - 1) && !Contains(Flatten(chunks[..i]), needle)
    {
      FlattenNext(chunks, i);
      changed, output, carry := ScrubChunk(redact, needle, Flatten(chunks[..i]), chunks[i], changed, output, carry);
    }
    assert chunks[..|chunks|] == chunks;
    Finished(redact, [needle], Flatten(chunks), output, carry);
    NothingToRedact(carry, needle);
    content := output + carry;
  }

  /** The next chunk goes into the window behind what was carried over. */
  method ScrubChunk(
    ghost redact: Bytes -> Bytes, needle: Bytes, ghost whole: Bytes, chunk: Bytes, changed: bool, output: Bytes, carry: Bytes)
    returns (now: bool, more: Bytes, left: Bytes)
    requires needle != [] && Computes(redact, [needle]) && Splits(redact, whole, output, carry, false) && |carry| < |needle|
    requires !changed ==> carry == Last(whole, |needle| - 1) && !Contains(whole, needle)
    ensures Splits(redact, whole + chunk, more, left, false) && |left| < |needle|
    ensures !now ==> left == Last(whole + chunk, |needle| - 1) && !Contains(whole + chunk, needle)
  {
    SplitsExtend(redact, whole, output, carry, chunk, false);
    var found, written;
    found, written, left := ScrubWindow(redact, carry + chunk, needle);
    SplitsCompose(redact, whole + chunk, output, carry + chunk, written, left, false);
    if !changed { CarryOn(whole, carry, chunk, needle, |needle| - 1); }
    now, more := changed || found, output + written;
  }

  /** One read of `_scrub_file`: replace what is complete, flush all but the last bytes. */
  method ScrubWindow(ghost redact: Bytes -> Bytes, window: Bytes, needle: Bytes) returns (found: bool, written: Bytes, left: Bytes)
    requires needle != [] && Computes(redact, [needle])
    ensures Splits(redact, window, written, left, false)
    ensures |left| < |needle|
    ensures found <==> Contains(window, needle)
    ensures !found ==> left == Last(window, |needle| - 1)
  {
    OneSecret(needle);
    found, written, left := ReplaceAll(redact, window, needle);
    var flush := if |left| < |needle| then 0 else |left| - |needle| + 1;
    assert left[0..] == left && left[0..flush] == left[..flush];
    if flush == 0 {
      assert written + left[..flush] == written;
    } else {
      StepPlain(redact, [needle], left, 0, flush, false);
      SplitsCompose(redact, window, written, left, left[..flush], left[flush..], false);
    }
    written, left := written + left[..flush], left[flush..];
  }

  lemma SplitsNothing(redact: Bytes -> Bytes, data: Bytes)
    ensures Splits(redact, data, [], data, false)
  {
    forall rest ensures SplitsBefore(redact, data, [], data, rest) {}
  }

  lemma ReplaceStep(redact: Bytes -> Bytes, needle: Bytes, window: Bytes, position: nat)
    requires Computes(redact, [needle]) && needle != []
    requires OccursAt(window, needle, position) && forall i | 0 <= i < position :: !OccursAt(window, needle, i)
    ensures position + |needle| <= |window|
    ensures Splits(redact, window, window[..position] + MASK, window[position + |needle|..], false)
  {
    OneSecret(needle);
    SplitsNothing(redact, window);
    assert window[0..] == window;
    StepMatch(redact, [needle], window, [], 0, Found(position, needle), false);
    assert [] + window[0..position] + MASK == window[..position] + MASK;
  }

  /** The inner loop of `_scrub_file`: replaces every complete occurrence in the window. */
  method ReplaceAll(ghost redact: Bytes -> Bytes, window: Bytes, needle: Bytes) returns (found: bool, written: Bytes, left: Bytes)
    requires needle != [] && Computes(redact, [needle])
    ensures Splits(redact, window, written, left, false)
    ensures !Contains(left, needle)
    ensures found <==> Contains(window, needle)
    ensures !found ==> left == window && written == []
  {
    OneSecret(needle);
    found, written, left := false, [], window;
    SplitsNothing(redact, window);
    FindDecides(window, needle);
    while FindFrom(left, needle, 0) >= 0
      invariant Splits(redact, window, written, left, false)
      invariant found || (left == window && written == [])
      invariant found ==> Contains(window, needle)
      decreases |left|
    {
      var position := FindFrom(left, needle, 0);
      ReplaceStep(redact, needle, left, position);
      SplitsCompose(redact, window, written, left, left[..position] + MASK, left[position + |needle|..], false);
      written := written + (left[..position] + MASK);
      left := left[position + |needle|..];
      found := true;
    }
    FindDecides(left, needle);
  }
}
