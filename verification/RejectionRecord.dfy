/** The bounded record of rejected private artifacts (private_artifacts.py): the largest
    prefix of the rejections whose JSON fits. */
module RejectionRecord {
  import opened Common
  import opened TextOrder
  import opened Decimal

  datatype Reason = Symlink | SpecialFile | FileSize | BundleSize | ReservedPath

  datatype Rejection = Rejection(path: string, reason: Reason, size: Option<nat>)

  function ReasonText(r: Reason): string {
    match r
    case Symlink => "symlink" case SpecialFile => "special_file" case FileSize => "file_size"
    case BundleSize => "bundle_size" case ReservedPath => "reserved_path"
  }

  /** One rejection in JSON; `quote` writes a path as a JSON string. */
  function Item(quote: string -> string, r: Rejection): (s: string)
    ensures |s| >= 2
  {
    "{\"path\":" + quote(r.path) + ",\"reason\":\"" + ReasonText(r.reason) + "\",\"size\":" +
    (if r.size.Some? then Number(r.size.value) else "null") + "}"
  }

  function Items(quote: string -> string, rs: seq<Rejection>): string {
    if rs == [] then ""
    else Items(quote, rs[..|rs| - 1]) + (if |rs| > 1 then "," else "") + Item(quote, rs[|rs| - 1])
  }

  const HEAD := "{\"omitted_count\":"
  const MIDDLE := ",\"rejections\":["
  const TAIL := "],\"schema_version\":\"harbor-hf/private-artifact-rejections/v1\"}\n"

  /** `_rejection_payload` */
  function Payload(quote: string -> string, rs: seq<Rejection>, count: nat, omitted: nat): (s: string)
    requires count <= |rs|
    ensures s != []
  {
    HEAD + Number(omitted + |rs| - count) + MIDDLE + Items(quote, rs[..count]) + TAIL
  }

  lemma ReasonsRead()
    ensures ReasonText(Symlink) == "symlink" && ReasonText(SpecialFile) == "special_file"
    ensures ReasonText(FileSize) == "file_size" && ReasonText(BundleSize) == "bundle_size" && ReasonText(ReservedPath) == "reserved_path"
  {
  }

  lemma ItemsOneMore(quote: string -> string, s: seq<Rejection>, x: Rejection)
    ensures Items(quote, s + [x]) == if s == [] then Item(quote, x) else Items(quote, s) + "," + Item(quote, x)
  {
    assert (s + [x])[..|s|] == s;
  }

  lemma CommasRegroup(a: string, b: string, c: string)
    ensures a + "," + b + "," + c == a + "," + (b + "," + c)
  {
  }

  /** Rejections stand one after the other with commas in between. */
  lemma {:induction false} ItemsJoin(quote: string -> string, a: seq<Rejection>, b: seq<Rejection>)
    requires a != [] && b != []
    ensures Items(quote, a + b) == Items(quote, a) + "," + Items(quote, b)
  {
    var front, last := b[..|b| - 1], b[|b| - 1];
    assert b == front + [last] && a + b == a + front + [last];
    ItemsOneMore(quote, front, last);
    ItemsOneMore(quote, a + front, last);
    if front == [] {
      assert a + front == a;
    } else {
      ItemsJoin(quote, a, front);
      CommasRegroup(Items(quote, a), Items(quote, front), Item(quote, last));
    }
  }

  /** The record grows with every rejection it lists, although the omitted count shrinks. */
  lemma PayloadGrows(quote: string -> string, rs: seq<Rejection>, count: nat, omitted: nat)
    requires count < |rs|
    ensures |Payload(quote, rs, count, omitted)| < |Payload(quote, rs, count + 1, omitted)|
  {
    assert rs[..count + 1][..count] == rs[..count];
    var fewer := omitted + |rs| - count - 1;
    OneMoreDigit(fewer);
    ItemsGrow(quote, rs, count);
    PayloadLength(quote, rs, count, omitted);
    PayloadLength(quote, rs, count + 1, omitted);
  }

  lemma ItemsGrow(quote: string -> string, rs: seq<Rejection>, count: nat)
    requires count < |rs|
    ensures |Items(quote, rs[..count])| + 2 <= |Items(quote, rs[..count + 1])|
  {
    assert rs[..count + 1][..count] == rs[..count];
  }

  lemma PayloadLength(quote: string -> string, rs: seq<Rejection>, count: nat, omitted: nat)
    requires count <= |rs|
    ensures |Payload(quote, rs, count, omitted)| ==
            |HEAD| + |Number(omitted + |rs| - count)| + |MIDDLE| + |Items(quote, rs[..count])| + |TAIL|
  {
  }

  function Sizes(quote: string -> string, rs: seq<Rejection>, omitted: nat): (r: seq<nat>)
    ensures |r| == |rs| + 1
  {
    seq(|rs| + 1, count requires 0 <= count <= |rs| => |Payload(quote, rs, count, omitted)|)
  }

  lemma SizesStep(quote: string -> string, rs: seq<Rejection>, omitted: nat, count: nat)
    requires count < |rs|
    ensures Sizes(quote, rs, omitted)[count] < Sizes(quote, rs, omitted)[count + 1]
  {
    PayloadGrows(quote, rs, count, omitted);
  }

  lemma SizesGrow(quote: string -> string, rs: seq<Rejection>, omitted: nat)
    ensures Climbs(Sizes(quote, rs, omitted))
  {
    forall count | 0 <= count < |rs| ensures Sizes(quote, rs, omitted)[count] < Sizes(quote, rs, omitted)[count + 1] {
      SizesStep(quote, rs, omitted, count);
    }
  }

  predicate Climbs(sizes: seq<nat>) {
    forall i | 0 <= i < |sizes| - 1 :: sizes[i] < sizes[i + 1]
  }

  lemma {:induction false} StepsAddUp(sizes: seq<nat>, a: nat, b: nat)
    requires a <= b < |sizes| && Climbs(sizes)
    ensures sizes[a] <= sizes[b]
    decreases b
  {
    if a < b {
      StepsAddUp(sizes, a, b - 1);
      assert sizes[b - 1] < sizes[b - 1 + 1];
    }
  }

  lemma PayloadOrder(quote: string -> string, rs: seq<Rejection>, a: nat, b: nat, omitted: nat)
    requires a <= b <= |rs|
    ensures |Payload(quote, rs, a, omitted)| <= |Payload(quote, rs, b, omitted)|
  {
    SizesGrow(quote, rs, omitted);
    StepsAddUp(Sizes(quote, rs, omitted), a, b);
  }

  // ---- one rejection per path, by path ----

  function ByPath(rejected: seq<Rejection>): map<string, Rejection> {
    if rejected == [] then map[]
    else ByPath(rejected[..|rejected| - 1])[rejected[|rejected| - 1].path := rejected[|rejected| - 1]]
  }

  function Pick(m: map<string, Rejection>, paths: seq<string>): seq<Rejection>
    requires forall p | p in paths :: p in m
  {
    seq(|paths|, i requires 0 <= i < |paths| => m[paths[i]])
  }

  /** The last rejection of each path, in the order of paths. */
  function Canonical(rejected: seq<Rejection>): seq<Rejection> {
    Pick(ByPath(rejected), Ascending(ByPath(rejected).Keys))
  }

  function Paths(rejected: seq<Rejection>): set<string> {
    set r | r in rejected :: r.path
  }

  lemma {:induction false} ByPathHolds(rejected: seq<Rejection>)
    ensures ByPath(rejected).Keys == Paths(rejected)
    ensures forall p | p in ByPath(rejected) :: ByPath(rejected)[p] in rejected && ByPath(rejected)[p].path == p
  {
    if rejected != [] {
      ByPathHolds(rejected[..|rejected| - 1]);
      assert rejected == rejected[..|rejected| - 1] + [rejected[|rejected| - 1]];
    }
  }

  /** Each rejected path is in the canonical list once. */
  lemma CanonicalCounts(rejected: seq<Rejection>)
    ensures |Canonical(rejected)| == |Paths(rejected)| && Paths(Canonical(rejected)) == Paths(rejected)
  {
    ByPathHolds(rejected);
    AscendingCounts(ByPath(rejected).Keys);
    var canonical, order := Canonical(rejected), Ascending(ByPath(rejected).Keys);
    forall p | p in Paths(rejected) ensures p in Paths(canonical) {
      var i :| 0 <= i < |order| && order[i] == p;
      assert canonical[i] in canonical && canonical[i].path == p;
    }
  }

  // ---- the record ----

  /** What the record on disk must be, and which rejections it lists. */
  predicate IsRecord(quote: string -> string, rejected: seq<Rejection>, omitted: nat, limit: nat,
                     retained: seq<Rejection>, record: Option<string>) {
    var canonical := Canonical(rejected);
    if canonical == [] && omitted == 0 then record == None && retained == []
    else if |Payload(quote, canonical, 0, omitted)| > limit then record == None && retained == []
    else
      && retained <= canonical && record == Some(Payload(quote, canonical, |retained|, omitted))
      && |record.value| <= limit
      && (|retained| < |canonical| ==> |Payload(quote, canonical, |retained| + 1, omitted)| > limit)
  }

  /** The binary search of `_write_rejections`. */
  method SelectPrefix(quote: string -> string, canonical: seq<Rejection>, omitted: nat, limit: nat)
    returns (selected: Option<string>, count: nat)
    ensures selected.None? <==> |Payload(quote, canonical, 0, omitted)| > limit
    ensures selected.Some? ==>
              && count <= |canonical| && selected.value == Payload(quote, canonical, count, omitted)
              && |selected.value| <= limit
              && forall c | count < c <= |canonical| :: |Payload(quote, canonical, c, omitted)| > limit
  {
    var low, high := 0, |canonical|;
    selected, count := None, 0;
    while low <= high
      invariant 0 <= low <= |canonical| + 1 && -1 <= high <= |canonical| && low <= high + 1
      invariant forall c | high < c <= |canonical| :: |Payload(quote, canonical, c, omitted)| > limit
      invariant selected.None? <==> low == 0
      invariant selected.Some? ==> count == low - 1 && selected.value == Payload(quote, canonical, count, omitted) && |selected.value| <= limit
      decreases high - low + 1
    {
      var middle := (low + high) / 2;
      var payload := Payload(quote, canonical, middle, omitted);
      if |payload| <= limit {
        selected, count, low := Some(payload), middle, middle + 1;
      } else {
        forall c | middle <= c <= |canonical| ensures |Payload(quote, canonical, c, omitted)| > limit {
          PayloadOrder(quote, canonical, middle, c, omitted);
        }
        high := middle - 1;
      }
    }
    if selected.Some? { PayloadOrder(quote, canonical, 0, count, omitted); }
  }

  /** `_write_rejections` */
  method WriteRejections(quote: string -> string, rejected: seq<Rejection>, limit: nat, omitted: nat)
    returns (retained: seq<Rejection>, record: Option<string>)
    ensures IsRecord(quote, rejected, omitted, limit, retained, record)
  {
    var canonical := Canonical(rejected);
    if canonical == [] && omitted == 0 { return [], None; }
    var count;
    record, count := SelectPrefix(quote, canonical, omitted, limit);
    retained := if record.None? then [] else canonical[..count];
  }

  /** A record says how many rejections it leaves out: with the ones it lists these are all
      the rejected paths, and those omitted before. */
  lemma RecordAccountsForAll(quote: string -> string, rejected: seq<Rejection>, omitted: nat, limit: nat,
                             retained: seq<Rejection>, record: Option<string>)
    requires IsRecord(quote, rejected, omitted, limit, retained, record) && record.Some?
    ensures |retained| <= |Paths(rejected)|
    ensures record.value == HEAD + Number(omitted + |Paths(rejected)| - |retained|) + MIDDLE + Items(quote, retained) + TAIL
  {
    CanonicalCounts(rejected);
    assert Canonical(rejected)[..|retained|] == retained;
  }

  /** A list that fits leaves nothing out. */
  lemma NothingOmittedWhenAllFit(quote: string -> string, rejected: seq<Rejection>, omitted: nat, limit: nat,
                                 retained: seq<Rejection>, record: Option<string>)
    requires IsRecord(quote, rejected, omitted, limit, retained, record)
    requires |Payload(quote, Canonical(rejected), |Canonical(rejected)|, omitted)| <= limit
    ensures retained == Canonical(rejected)
  {
    var canonical := Canonical(rejected);
    PayloadOrder(quote, canonical, 0, |canonical|, omitted);
    if record.Some? && |retained| < |canonical| {
      PayloadOrder(quote, canonical, |retained| + 1, |canonical|, omitted);
    }
  }
}
