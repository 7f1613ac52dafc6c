/** Streaming redaction of known secrets: `_RedactingWriter` (process.py), and the
    chunked search and rewrite of evidence files (evidence.py, benchmark_bundle.py).

    The reference is `Redact`, which reads the whole input at once.  Everything that
    works chunk by chunk is proved to produce what the reference produces, however the
    input happens to be cut. */
module Redaction {

  type Byte = bv8
  type Bytes = seq<Byte>

  // b"[REDACTED]"
  const MASK: Bytes := [91, 82, 69, 68, 65, 67, 84, 69, 68, 93]

  predicate NonEmptySecrets(secrets: seq<Bytes>) {
    forall s | s in secrets :: s != []
  }

  predicate OccursAt(data: Bytes, needle: Bytes, i: int) {
    0 <= i <= |data| && needle <= data[i..]
  }

  ghost predicate Contains(data: Bytes, needle: Bytes) {
    exists i :: OccursAt(data, needle, i)
  }

  /** The longest secret that data begins with; empty when there is none. */
  function Longest(secrets: seq<Bytes>, data: Bytes): (r: Bytes)
    ensures r <= data && (r == [] || r in secrets)
    ensures forall s | s in secrets && s <= data :: |s| <= |r|
  {
    if secrets == [] then [] else
      var r := Longest(secrets[1..], data);
      if secrets[0] <= data && |r| < |secrets[0]| then secrets[0] else r
  }

  /** Leftmost-longest replacement on a whole input. */
  function Redact(secrets: seq<Bytes>, data: Bytes): Bytes
    decreases |data|
  {
    if data == [] then [] else
      var m := Longest(secrets, data);
      if m != [] then MASK + Redact(secrets, data[|m|..])
      else [data[0]] + Redact(secrets, data[1..])
  }

  // ---------- the reference is a faithful, complete redaction ----------

  /** One step of the reference: a byte kept as it is, or one occurrence of a secret. */
  datatype Token = Plain(b: Byte) | Mask(secret: Bytes)

  function Tokens(secrets: seq<Bytes>, data: Bytes): seq<Token>
    decreases |data|
  {
    if data == [] then [] else
      var m := Longest(secrets, data);
      if m != [] then [Mask(m)] + Tokens(secrets, data[|m|..])
      else [Plain(data[0])] + Tokens(secrets, data[1..])
  }

  /** The text of a token sequence, with every occurrence of a secret either shown or masked. */
  function Text(ts: seq<Token>, show: bool): Bytes {
    if ts == [] then [] else TextOf(ts[0], show) + Text(ts[1..], show)
  }

  function TextOf(t: Token, show: bool): Bytes {
    if t.Plain? then [t.b] else if show then t.secret else MASK
  }

  /** Redaction only ever swaps whole secrets for the mask: showing the masked text
      again gives back the input, and masking it gives the redacted text. */
  lemma RedactionKeepsTheInput(secrets: seq<Bytes>, data: Bytes)
    ensures Text(Tokens(secrets, data), true) == data
    ensures Text(Tokens(secrets, data), false) == Redact(secrets, data)
    ensures forall t | t in Tokens(secrets, data) && t.Mask? :: t.secret in secrets
  {
    TokensShowTheInput(secrets, data);
    TokensMaskTheInput(secrets, data);
    TokensAreSecrets(secrets, data);
  }

  /** Of what is given first, this gives back a beginning and goes on with the rest. */
  ghost predicate GivesBeginning(f: Bytes -> Bytes, data: Bytes) {
    exists n | 0 < n <= |data| :: f(data) == data[..n] + f(data[n..])
  }

  lemma {:induction false} GivesAll(f: Bytes -> Bytes, data: Bytes)
    requires f([]) == [] && forall d | d != [] :: GivesBeginning(f, d)
    ensures f(data) == data
    decreases |data|
  {
    if data != [] {
      assert GivesBeginning(f, data);
      var n :| 0 < n <= |data| && f(data) == data[..n] + f(data[n..]);
      GivesAll(f, data[n..]);
    }
  }

  ghost function Shown(secrets: seq<Bytes>): Bytes -> Bytes {
    data => Text(Tokens(secrets, data), true)
  }

  lemma ShownGivesBeginning(secrets: seq<Bytes>, data: Bytes)
    requires data != []
    ensures GivesBeginning(Shown(secrets), data)
  {
    FirstToken(secrets, data);
    var n := Consumed(secrets, data);
    assert Shown(secrets)(data) == data[..n] + Shown(secrets)(data[n..]);
  }

  lemma TokensShowTheInput(secrets: seq<Bytes>, data: Bytes)
    ensures Text(Tokens(secrets, data), true) == data
  {
    forall d | d != [] ensures GivesBeginning(Shown(secrets), d) {
      ShownGivesBeginning(secrets, d);
    }
    GivesAll(Shown(secrets), data);
  }

  lemma {:induction false} TokensMaskTheInput(secrets: seq<Bytes>, data: Bytes)
    ensures Text(Tokens(secrets, data), false) == Redact(secrets, data)
    decreases |data|
  {
    if data != [] {
      TokensMaskTheInput(secrets, data[Consumed(secrets, data)..]);
      FirstToken(secrets, data);
    }
  }

  lemma {:induction false} TokensAreSecrets(secrets: seq<Bytes>, data: Bytes)
    ensures forall t | t in Tokens(secrets, data) && t.Mask? :: t.secret in secrets
    decreases |data|
  {
    if data != [] {
      var m := Longest(secrets, data);
      var n := if m != [] then |m| else 1;
      TokensAreSecrets(secrets, data[n..]);
    }
  }

  lemma FirstToken(secrets: seq<Bytes>, data: Bytes)
    requires data != []
    ensures var m := Longest(secrets, data);
            var n := if m != [] then |m| else 1;
            var t := if m != [] then Mask(m) else Plain(data[0]);
            && Tokens(secrets, data) == [t] + Tokens(secrets, data[n..])
            && (t.Mask? ==> t.secret in secrets)
            && Text(Tokens(secrets, data), true) == data[..n] + Text(Tokens(secrets, data[n..]), true)
            && Text(Tokens(secrets, data), false) == TextOf(t, false) + Text(Tokens(secrets, data[n..]), false)
  {
    var m := Longest(secrets, data);
    var n := if m != [] then |m| else 1;
    var t := if m != [] then Mask(m) else Plain(data[0]);
    TextCons(t, Tokens(secrets, data[n..]));
    assert TextOf(t, true) == data[..n];
  }

  lemma TextCons(t: Token, ts: seq<Token>)
    ensures forall show :: Text([t] + ts, show) == TextOf(t, show) + Text(ts, show)
  {
    assert ([t] + ts)[1..] == ts;
  }

  /** The bytes of tokens from..to, all of which are kept bytes. */
  ghost predicate IsLiteralRun(ts: seq<Token>, from: nat, run: Bytes) {
    from + |run| <= |ts| && forall k | 0 <= k < |run| :: ts[from + k] == Plain(run[k])
  }

  /** A run of bytes that the redaction keeps contains no complete secret. */
  lemma {:induction false} LiteralRunHasNoSecret(secrets: seq<Bytes>, data: Bytes, from: nat, run: Bytes, secret: Bytes)
    requires NonEmptySecrets(secrets) && secret in secrets
    requires IsLiteralRun(Tokens(secrets, data), from, run)
    ensures !Contains(run, secret)
    decreases |data|, |run|
  {
    if run != [] {
      LiteralRunShifts(secrets, data, from, run);
      if from > 0 {
        LiteralRunHasNoSecret(secrets, data[Consumed(secrets, data)..], from - 1, run, secret);
      } else {
        LiteralRunHasNoSecret(secrets, data[1..], 0, run[1..], secret);
        NoSecretInFront(secrets, data, run, secret);
        NowhereInRun(run, secret);
      }
    } else {
      NothingInEmpty(secret);
    }
  }

  lemma NothingInEmpty(secret: Bytes)
    requires secret != []
    ensures !Contains([], secret)
  {
  }

  lemma NowhereInRun(run: Bytes, secret: Bytes)
    requires run != [] && !OccursAt(run, secret, 0) && !Contains(run[1..], secret)
    ensures !Contains(run, secret)
  {
    forall i ensures !OccursAt(run, secret, i) {
      if i > 0 { OccursLater(run, secret, i); }
    }
  }

  /** How many bytes the first token of data stands for. */
  function Consumed(secrets: seq<Bytes>, data: Bytes): (n: nat)
    requires data != []
    ensures 0 < n <= |data|
  {
    if Longest(secrets, data) != [] then |Longest(secrets, data)| else 1
  }

  lemma LiteralRunShifts(secrets: seq<Bytes>, data: Bytes, from: nat, run: Bytes)
    requires IsLiteralRun(Tokens(secrets, data), from, run) && run != []
    ensures data != []
    ensures from > 0 ==> IsLiteralRun(Tokens(secrets, data[Consumed(secrets, data)..]), from - 1, run)
    ensures from == 0 ==> IsLiteralRun(Tokens(secrets, data[1..]), 0, run[1..]) && Longest(secrets, data) == []
  {
    var rest := Tokens(secrets, data)[1..];
    assert rest == Tokens(secrets, data[Consumed(secrets, data)..]);
    if from > 0 {
      forall k | 0 <= k < |run| ensures rest[from - 1 + k] == Plain(run[k]) {}
    } else {
      assert Tokens(secrets, data)[0] == Plain(run[0]);
      forall k | 0 <= k < |run| - 1 ensures rest[k] == Plain(run[1..][k]) {
        assert Tokens(secrets, data)[0 + (k + 1)] == Plain(run[k + 1]);
      }
    }
  }

  lemma NoSecretInFront(secrets: seq<Bytes>, data: Bytes, run: Bytes, secret: Bytes)
    requires NonEmptySecrets(secrets) && secret in secrets && Longest(secrets, data) == []
    requires IsLiteralRun(Tokens(secrets, data), 0, run)
    ensures !OccursAt(run, secret, 0)
  {
    LiteralRunIsInput(secrets, data, run);
    assert run[0..] == run;
  }

  lemma OccursLater(data: Bytes, s: Bytes, i: int)
    requires data != [] && i > 0
    ensures OccursAt(data, s, i) <==> OccursAt(data[1..], s, i - 1)
  {
    if i <= |data| { assert data[i..] == data[1..][i - 1..]; }
  }

  lemma {:induction false} LiteralRunIsInput(secrets: seq<Bytes>, data: Bytes, run: Bytes)
    requires IsLiteralRun(Tokens(secrets, data), 0, run)
    ensures run <= data
    decreases |run|
  {
    if run != [] {
      assert Tokens(secrets, data)[0] == Plain(run[0]);
      assert Tokens(secrets, data)[1..] == Tokens(secrets, data[1..]);
      LiteralRunIsInput(secrets, data[1..], run[1..]);
    }
  }

  // ---- secrets and the mask ----

  /** A mask laid over this string from position `i` on agrees with all it covers. */
  predicate TouchesAt(s: Bytes, i: int) {
    -|MASK| < i < |s| && forall k | 0 <= k < |MASK| && 0 <= i + k < |s| :: s[i + k] == MASK[k]
  }

  /** The string and the mask can overlap. */
  predicate Touches(s: Bytes) {
    exists i | -|MASK| < i < |s| :: TouchesAt(s, i)
  }

  /** What is left of a string that cannot touch a mask, at the start of the redacted text,
      is a run of kept bytes. */
  lemma {:induction false} StartsInLiteralRun(ts: seq<Token>, s: Bytes, j: nat)
    requires !Touches(s) && j <= |s| && s[j..] <= Text(ts, false)
    ensures IsLiteralRun(ts, 0, s[j..])
    decreases |ts|
  {
    if j < |s| {
      var first, rest := TextOf(ts[0], false), Text(ts[1..], false);
      if ts[0].Mask? {
        StartsWithTheMask(rest, s, j);
      } else {
        assert s[j..][0] == (first + rest)[0];
        assert s[j + 1..] <= rest by { AfterTheFirst(s[j..], first, rest); }
        StartsInLiteralRun(ts[1..], s, j + 1);
        forall k | 0 <= k < |s[j..]| ensures ts[k] == Plain(s[j..][k]) {
          if k > 0 { assert ts[1..][k - 1] == Plain(s[j + 1..][k - 1]); }
        }
      }
    }
  }

  lemma StartsWithTheMask(rest: Bytes, s: Bytes, j: nat)
    requires j < |s| && s[j..] <= MASK + rest
    ensures Touches(s)
  {
    forall k | 0 <= k < |MASK| && 0 <= j + k < |s| ensures s[j + k] == MASK[k] {
      assert s[j..][k] == (MASK + rest)[k];
    }
    assert TouchesAt(s, j);
  }

  lemma AfterTheFirst(s: Bytes, first: Bytes, rest: Bytes)
    requires s != [] && |first| == 1 && s <= first + rest
    ensures s[1..] <= rest
  {
    assert (first + rest)[1..] == rest;
  }

  /** And so is all of it anywhere in the redacted text. */
  lemma {:induction false} OccursInLiteralRun(ts: seq<Token>, s: Bytes, i: int) returns (from: nat)
    requires !Touches(s) && s != [] && OccursAt(Text(ts, false), s, i)
    ensures IsLiteralRun(ts, from, s)
  {
    if i == 0 {
      assert Text(ts, false)[0..] == Text(ts, false) && s[0..] == s;
      StartsInLiteralRun(ts, s, 0);
      from := 0;
    } else {
      var first, rest := TextOf(ts[0], false), Text(ts[1..], false);
      if i < |first| { InsideTheMask(rest, s, i); }
      assert (first + rest)[i..] == rest[i - |first|..];
      from := OccursInLiteralRun(ts[1..], s, i - |first|);
      forall k | 0 <= k < |s| ensures ts[from + 1 + k] == Plain(s[k]) {
        assert ts[1..][from + k] == Plain(s[k]);
      }
      from := from + 1;
    }
  }

  lemma InsideTheMask(rest: Bytes, s: Bytes, i: int)
    requires s != [] && 0 <= i < |MASK| && OccursAt(MASK + rest, s, i)
    ensures Touches(s)
  {
    forall k | 0 <= k < |MASK| && 0 <= -i + k < |s| ensures s[-i + k] == MASK[k] {
      assert s[-i + k] == (MASK + rest)[i..][-i + k];
    }
    assert TouchesAt(s, -i);
  }

  /** A secret that cannot overlap the mask is nowhere in the redacted text. */
  lemma RedactedTextIsClean(secrets: seq<Bytes>, data: Bytes, s: Bytes)
    requires NonEmptySecrets(secrets) && s in secrets && !Touches(s)
    ensures !Contains(Redact(secrets, data), s)
  {
    RedactionKeepsTheInput(secrets, data);
    forall i ensures !OccursAt(Redact(secrets, data), s, i) {
      if OccursAt(Redact(secrets, data), s, i) {
        var from := OccursInLiteralRun(Tokens(secrets, data), s, i);
        LiteralRunHasNoSecret(secrets, data, from, s, s);
        RunHoldsItself(s);
      }
    }
  }

  // ---- a secret that can overlap the mask ----

  /** `n` times the same byte. */
  function Times(c: Byte, n: nat): (r: Bytes)
    ensures |r| == n && forall k | 0 <= k < n :: r[k] == c
  {
    seq(n, _ => c)
  }

  /** The parts of a string in front of such a mask and behind it. */
  function InFront(s: Bytes, i: int): Bytes
    requires i < |s|
  {
    if i <= 0 then [] else s[..i]
  }

  function Behind(s: Bytes, i: int): Bytes
    requires -|MASK| < i
  {
    if i + |MASK| >= |s| then [] else s[i + |MASK|..]
  }

  lemma {:induction false} ShorterIsKept(secrets: seq<Bytes>, data: Bytes)
    requires forall s | s in secrets :: |data| < |s|
    ensures Redact(secrets, data) == data
  {
    if data != [] { ShorterIsKept(secrets, data[1..]); }
  }

  /** One byte more than `s`, all of them `c`. */
  predicate IsFill(s: Bytes, t: Bytes, c: Byte) {
    |t| == |s| + 1 && forall k | 0 <= k < |t| :: t[k] == c
  }

  /** Neither secret begins inside `u`: one ends, and the other begins, with another byte. */
  lemma NothingBegins(s: Bytes, u: Bytes, c: Byte, t: Bytes, v: Bytes)
    requires u != [] && |u| < |s| && IsFill(s, t, c) && c != s[|s| - 1] && c != u[|u| - 1]
    ensures Longest([s, t], u + t + v) == []
  {
    var data := u + t + v;
    assert data[|s| - 1] == t[|s| - 1 - |u|];
    assert data[|u| - 1] == u[|u| - 1];
    assert !(s <= data) && !(t <= data);
  }

  lemma LongerIsMasked(s: Bytes, t: Bytes, v: Bytes)
    requires |v| < |s| < |t|
    ensures Redact([s, t], t + v) == MASK + v
  {
    assert Longest([s, t], t + v) == t;
    assert (t + v)[|t|..] == v;
    ShorterIsKept([s, t], v);
  }

  ghost predicate KeepsFirst(redact: Bytes -> Bytes, data: Bytes) {
    data != [] && redact(data) == [data[0]] + redact(data[1..])
  }

  lemma TakeFirst(u: Bytes, j: nat, t: Bytes, v: Bytes)
    requires j < |u|
    ensures var data := u[j..] + t + v; data[0] == u[j] && data[1..] == u[j + 1..] + t + v
    ensures u[j..] + t + v == [u[j]] + (u[j + 1..] + t + v)
  {
  }

  /** What stands in front of the one match is kept byte by byte. */
  lemma {:induction false} KeptInFront(redact: Bytes -> Bytes, u: Bytes, t: Bytes, v: Bytes, j: nat)
    requires j <= |u| && redact(t + v) == MASK + v
    requires forall k | 0 <= k < |u| :: KeepsFirst(redact, u[k..] + t + v)
    ensures redact(u[j..] + t + v) == u[j..] + MASK + v
    decreases |u| - j
  {
    if j == |u| {
      assert u[j..] + t + v == t + v && u[j..] + MASK + v == MASK + v;
    } else {
      KeptInFront(redact, u, t, v, j + 1);
      TakeFirst(u, j, t, v);
      TakeFirst(u, j, MASK, v);
      assert KeepsFirst(redact, u[j..] + t + v);
    }
  }

  lemma NothingBeginsLater(s: Bytes, u: Bytes, c: Byte, t: Bytes, v: Bytes, k: nat)
    requires k < |u| < |s| && IsFill(s, t, c) && c != s[|s| - 1] && c != u[|u| - 1]
    ensures Longest([s, t], u[k..] + t + v) == []
  {
    NothingBegins(s, u[k..], c, t, v);
  }

  lemma FirstIsKept(secrets: seq<Bytes>, data: Bytes)
    requires data != [] && Longest(secrets, data) == []
    ensures KeepsFirst(Redactor(secrets), data)
  {
  }

  lemma AllInFrontIsKept(s: Bytes, u: Bytes, c: Byte, t: Bytes, v: Bytes)
    requires |u| < |s| && IsFill(s, t, c) && c != s[|s| - 1] && (u != [] ==> c != u[|u| - 1])
    ensures forall k | 0 <= k < |u| :: KeepsFirst(Redactor([s, t]), u[k..] + t + v)
  {
    forall k | 0 <= k < |u| ensures KeepsFirst(Redactor([s, t]), u[k..] + t + v) {
      NothingBeginsLater(s, u, c, t, v, k);
      FirstIsKept([s, t], u[k..] + t + v);
    }
  }

  lemma OneMatchIsMasked(s: Bytes, u: Bytes, c: Byte, t: Bytes, v: Bytes)
    requires |u| < |s| && |v| < |s| && IsFill(s, t, c) && c != s[|s| - 1] && (u != [] ==> c != u[|u| - 1])
    ensures Redact([s, t], u + t + v) == u + MASK + v
  {
    LongerIsMasked(s, t, v);
    AllInFrontIsKept(s, u, c, t, v);
    KeptInFront(Redactor([s, t]), u, t, v, 0);
    assert u[0..] == u;
  }

  lemma OtherByte(a: Byte, b: Byte) returns (c: Byte)
    ensures c != a && c != b
  {
    c := if a != 0 && b != 0 then 0 else if a != 1 && b != 1 then 1 else 2;
  }

  lemma AroundTheMask(s: Bytes, i: int)
    requires s != [] && TouchesAt(s, i)
    ensures Contains(InFront(s, i) + MASK + Behind(s, i), s)
  {
    var text, from := InFront(s, i) + MASK + Behind(s, i), if i < 0 then -i else 0;
    forall k | 0 <= k < |s| ensures s[k] == text[from + k] {
      ByteAroundTheMask(s, i, k);
    }
    assert text[from..][..|s|] == s;
    assert OccursAt(text, s, from);
  }

  lemma ByteAroundTheMask(s: Bytes, i: int, k: nat)
    requires TouchesAt(s, i) && k < |s|
    ensures var text, from := InFront(s, i) + MASK + Behind(s, i), if i < 0 then -i else 0;
            from + |s| <= |text| && text[from + k] == s[k]
  {
    if 0 <= k - i < |MASK| { assert s[i + (k - i)] == MASK[k - i]; }
  }

  /** With one more secret and a fitting input it shows in the output. */
  lemma TouchingSecretShows(s: Bytes) returns (secrets: seq<Bytes>, data: Bytes)
    requires s != [] && Touches(s)
    ensures NonEmptySecrets(secrets) && s in secrets && Contains(Redact(secrets, data), s)
  {
    var i :| -|MASK| < i < |s| && TouchesAt(s, i);
    var u, v := InFront(s, i), Behind(s, i);
    var c := OtherByte(s[|s| - 1], if u == [] then s[|s| - 1] else u[|u| - 1]);
    var t := Times(c, |s| + 1);
    secrets, data := [s, t], u + t + v;
    OneMatchIsMasked(s, u, c, t, v);
    AroundTheMask(s, i);
  }

  /** Where a secret is shown: among these secrets, in the output for this input. */
  ghost predicate ShownBy(secrets: seq<Bytes>, data: Bytes, s: Bytes) {
    NonEmptySecrets(secrets) && s in secrets && Contains(Redact(secrets, data), s)
  }

  /** A secret is hidden in all outputs, whatever the other secrets, if and only if it cannot
      overlap the mask. */
  lemma HiddenExactly(s: Bytes)
    requires s != []
    ensures (exists secrets, data :: ShownBy(secrets, data, s)) <==> Touches(s)
  {
    if Touches(s) {
      var secrets, data := TouchingSecretShows(s);
      assert ShownBy(secrets, data, s);
    } else {
      forall secrets, data ensures !ShownBy(secrets, data, s) {
        if NonEmptySecrets(secrets) && s in secrets { RedactedTextIsClean(secrets, data, s); }
      }
    }
  }

  lemma RunHoldsItself(s: Bytes)
    ensures Contains(s, s)
  {
    assert s[0..] == s;
    assert OccursAt(s, s, 0);
  }

  /** The other way round, a secret that the mask spells is in the redacted text as soon as
      anything was redacted. */
  lemma MaskShowsItsSecret(secrets: seq<Bytes>, data: Bytes, found: Bytes, s: Bytes)
    requires NonEmptySecrets(secrets) && found in secrets && Contains(data, found) && Contains(MASK, s)
    ensures Contains(Redact(secrets, data), s)
  {
    RedactionKeepsTheInput(secrets, data);
    var ts := Tokens(secrets, data);
    if forall t | t in ts :: t.Plain? {
      AllPlainIsTheInput(ts);
      LiteralRunHasNoSecret(secrets, data, 0, Text(ts, true), found);
    }
    var k :| 0 <= k < |ts| && ts[k].Mask?;
    MaskIsInText(ts, k, s);
  }

  /** For instance the secret "E", redacted, is still there. */
  lemma MaskedTextCanContainSecret()
    ensures exists secrets, data, s :: NonEmptySecrets(secrets) && s in secrets && Contains(Redact(secrets, data), s)
  {
    var s: Bytes := [69];
    assert MASK[2..][0] == 69;
    assert OccursAt(MASK, s, 2);
    RunHoldsItself(s);
    MaskShowsItsSecret([s], s, s, s);
    assert NonEmptySecrets([s]) && s in [s];
  }

  lemma {:induction false} AllPlainIsTheInput(ts: seq<Token>)
    requires forall t | t in ts :: t.Plain?
    ensures IsLiteralRun(ts, 0, Text(ts, true))
  {
    if ts != [] {
      AllPlainIsTheInput(ts[1..]);
      var text := Text(ts, true);
      assert text == [ts[0].b] + Text(ts[1..], true);
      forall k | 0 <= k < |text| ensures ts[k] == Plain(text[k]) {
        if k > 0 { assert ts[1..][k - 1] == Plain(Text(ts[1..], true)[k - 1]); }
      }
    }
  }

  lemma {:induction false} MaskIsInText(ts: seq<Token>, k: nat, s: Bytes)
    requires k < |ts| && ts[k].Mask? && Contains(MASK, s)
    ensures Contains(Text(ts, false), s)
  {
    if k == 0 {
      ContainedInSum(MASK, Text(ts[1..], false), s);
    } else {
      MaskIsInText(ts[1..], k - 1, s);
      ContainedInSum(TextOf(ts[0], false), Text(ts[1..], false), s);
    }
  }

  lemma ContainedInSum(a: Bytes, b: Bytes, s: Bytes)
    requires Contains(a, s) || Contains(b, s)
    ensures Contains(a + b, s)
  {
    if Contains(a, s) {
      var i :| OccursAt(a, s, i);
      assert (a + b)[i..] == a[i..] + b;
      assert OccursAt(a + b, s, i);
    } else {
      var i :| OccursAt(b, s, i);
      assert (a + b)[|a| + i..] == b[i..];
      assert OccursAt(a + b, s, |a| + i);
    }
  }

  // ---------- what a prefix of the input already decides ----------

  ghost predicate NoneStartsIn(secrets: seq<Bytes>, data: Bytes, from: int, to: int) {
    forall s, i | s in secrets && from <= i < to :: !OccursAt(data, s, i)
  }

  /** When no secret begins in the first n positions, those positions are kept. */
  lemma {:induction false} SkipPlain(secrets: seq<Bytes>, data: Bytes, n: nat)
    requires n <= |data|
    requires NoneStartsIn(secrets, data, 0, n)
    ensures Redact(secrets, data) == data[..n] + Redact(secrets, data[n..])
  {
    if n == 0 {
      assert data[0..] == data;
    } else {
      SkipOne(secrets, data, n);
      SkipPlain(secrets, data[1..], n - 1);
      assert data[1..][n - 1..] == data[n..];
      Prepend(data, n, Redact(secrets, data[n..]));
    }
  }

  lemma Prepend(data: Bytes, n: nat, later: Bytes)
    requires 0 < n <= |data|
    ensures [data[0]] + (data[1..][..n - 1] + later) == data[..n] + later
  {}

  lemma SkipOne(secrets: seq<Bytes>, data: Bytes, n: nat)
    requires 0 < n <= |data|
    requires NoneStartsIn(secrets, data, 0, n)
    ensures Redact(secrets, data) == [data[0]] + Redact(secrets, data[1..])
    ensures NoneStartsIn(secrets, data[1..], 0, n - 1)
  {
    assert data[0..] == data;
    assert OccursAt(data, Longest(secrets, data), 0);
    forall s, i | s in secrets && 0 <= i < n - 1 ensures !OccursAt(data[1..], s, i) {
      OccursLater(data, s, i + 1);
    }
  }

  /** A position that has room for the longest secret is decided by what is already there. */
  lemma LaterBytesDoNotMatter(data: Bytes, rest: Bytes, s: Bytes, i: int)
    requires 0 <= i && i + |s| <= |data|
    ensures OccursAt(data, s, i) <==> OccursAt(data + rest, s, i)
  {
    assert (data + rest)[i..] == data[i..] + rest;
  }

  /** bytes.find(needle, start), with -1 for "not found". */
  function FindFrom(data: Bytes, needle: Bytes, start: nat): (r: int)
    ensures r == -1 ==> forall i | start <= i :: !OccursAt(data, needle, i)
    ensures r != -1 ==> start <= r && OccursAt(data, needle, r) && forall i | start <= i < r :: !OccursAt(data, needle, i)
    decreases |data| - start
  {
    if start > |data| then -1
    else if needle <= data[start..] then start
    else FindFrom(data, needle, start + 1)
  }

  datatype Match = NoMatch | Found(index: nat, secret: Bytes)

  /** The least (index, -length) over all secrets found in the window [position, limit). */
  function NextMatch(secrets: seq<Bytes>, data: Bytes, position: nat, limit: nat): (m: Match)
    ensures m.NoMatch? ==> NoneStartsIn(secrets, data, position, limit)
    ensures m.Found? ==>
              && position <= m.index < limit && m.secret in secrets && OccursAt(data, m.secret, m.index)
              && NoneStartsIn(secrets, data, position, m.index)
              && forall s | s in secrets && OccursAt(data, s, m.index) :: |s| <= |m.secret|
  {
    if secrets == [] then NoMatch else
      var later := NextMatch(secrets[1..], data, position, limit);
      var index := FindFrom(data, secrets[0], position);
      if index == -1 || limit <= index then later
      else if later.NoMatch? || index < later.index || (index == later.index && |later.secret| < |secrets[0]|)
      then Found(index, secrets[0])
      else later
  }

  function MaxLength(secrets: seq<Bytes>): (n: nat)
    ensures forall s | s in secrets :: |s| <= n
  {
    if secrets == [] then 0 else
      var m := MaxLength(secrets[1..]);
      if m < |secrets[0]| then |secrets[0]| else m
  }

  /** max(len(secret) for secret in secrets, default=1) - 1 */
  function Overlap(secrets: seq<Bytes>): (n: nat)
    requires NonEmptySecrets(secrets)
    ensures forall s | s in secrets :: |s| <= n + 1
  {
    if secrets == [] then 0 else
      assert secrets[0] in secrets;
      MaxLength(secrets) - 1
  }

  /** `redact` is the redaction of these secrets.  The streaming proofs work with the
      function value and look inside it only at the two steps of the loop. */
  ghost predicate Computes(redact: Bytes -> Bytes, secrets: seq<Bytes>) {
    forall data {:trigger Redact(secrets, data)} :: redact(data) == Redact(secrets, data)
  }

  ghost function Redactor(secrets: seq<Bytes>): (redact: Bytes -> Bytes)
    ensures Computes(redact, secrets)
  {
    data => Redact(secrets, data)
  }

  ghost predicate SplitsBefore(redact: Bytes -> Bytes, whole: Bytes, out: Bytes, tail: Bytes, rest: Bytes) {
    redact(whole + rest) == out + redact(tail + rest)
  }

  /** Redacting `whole` writes `out` and then continues with `tail`, whatever arrives
      later (nothing does when `final` holds). */
  ghost predicate Splits(redact: Bytes -> Bytes, whole: Bytes, out: Bytes, tail: Bytes, final: bool) {
    forall rest {:trigger SplitsBefore(redact, whole, out, tail, rest)} |
      final ==> rest == [] :: SplitsBefore(redact, whole, out, tail, rest)
  }

  lemma SplitsCompose(redact: Bytes -> Bytes, a: Bytes, out: Bytes, b: Bytes, more: Bytes, c: Bytes, final: bool)
    requires Splits(redact, a, out, b, final) && Splits(redact, b, more, c, final)
    ensures Splits(redact, a, out + more, c, final)
  {
    forall rest | final ==> rest == [] ensures SplitsBefore(redact, a, out + more, c, rest) {
      assert SplitsBefore(redact, a, out, b, rest) && SplitsBefore(redact, b, more, c, rest);
      assert (out + more) + redact(c + rest) == out + (more + redact(c + rest));
    }
  }

  lemma SplitsExtend(redact: Bytes -> Bytes, a: Bytes, out: Bytes, b: Bytes, chunk: Bytes, final: bool)
    requires Splits(redact, a, out, b, false)
    ensures Splits(redact, a + chunk, out, b + chunk, final)
  {
    forall rest | final ==> rest == [] ensures SplitsBefore(redact, a + chunk, out, b + chunk, rest) {
      assert SplitsBefore(redact, a, out, b, chunk + rest);
      assert a + chunk + rest == a + (chunk + rest);
      assert b + chunk + rest == b + (chunk + rest);
    }
  }

  lemma StepPlain(redact: Bytes -> Bytes, secrets: seq<Bytes>, data: Bytes, position: nat, limit: nat, final: bool)
    requires Computes(redact, secrets)
    requires NonEmptySecrets(secrets) && position <= limit <= |data|
    requires final || limit + Overlap(secrets) <= |data|
    requires NoneStartsIn(secrets, data, position, limit)
    ensures Splits(redact, data[position..], data[position..limit], data[limit..], final)
  {
    var kept, tail := data[position..limit], data[limit..];
    assert data[position..] == kept + tail;
    forall rest | final ==> rest == [] ensures SplitsBefore(redact, data[position..], kept, tail, rest) {
      NoneStartsLater(secrets, data, position, limit, rest);
      PlainBefore(redact, secrets, kept, tail, rest);
    }
  }

  lemma PlainBefore(redact: Bytes -> Bytes, secrets: seq<Bytes>, kept: Bytes, tail: Bytes, rest: Bytes)
    requires Computes(redact, secrets)
    requires NoneStartsIn(secrets, kept + tail + rest, 0, |kept|)
    ensures SplitsBefore(redact, kept + tail, kept, tail, rest)
  {
    assert kept + tail + rest == kept + (tail + rest);
    SkipKept(redact, secrets, kept, tail + rest);
  }

  lemma SkipKept(redact: Bytes -> Bytes, secrets: seq<Bytes>, kept: Bytes, later: Bytes)
    requires Computes(redact, secrets) && NoneStartsIn(secrets, kept + later, 0, |kept|)
    ensures redact(kept + later) == kept + redact(later)
  {
    var d := kept + later;
    SkipPlain(secrets, d, |kept|);
    assert d[..|kept|] == kept && d[|kept|..] == later;
    assert redact(d) == Redact(secrets, d) && redact(later) == Redact(secrets, later);
  }

  lemma NoneStartsLater(secrets: seq<Bytes>, data: Bytes, position: nat, limit: nat, rest: Bytes)
    requires NonEmptySecrets(secrets) && position <= limit <= |data|
    requires rest == [] || limit + Overlap(secrets) <= |data|
    requires NoneStartsIn(secrets, data, position, limit)
    ensures NoneStartsIn(secrets, data[position..] + rest, 0, limit - position)
  {
    var d := data[position..] + rest;
    forall s, i | s in secrets && 0 <= i < limit - position ensures !OccursAt(d, s, i) {
      assert !OccursAt(data, s, position + i);
      assert (data + rest)[position + i..] == d[i..];
      if rest == [] {
        assert data + rest == data;
      } else {
        LaterBytesDoNotMatter(data, rest, s, position + i);
      }
    }
  }

  lemma StepMask(redact: Bytes -> Bytes, secrets: seq<Bytes>, data: Bytes, index: nat, secret: Bytes, final: bool)
    requires Computes(redact, secrets)
    requires NonEmptySecrets(secrets) && secret in secrets && OccursAt(data, secret, index)
    requires final || index + Overlap(secrets) < |data|
    requires forall s | s in secrets && OccursAt(data, s, index) :: |s| <= |secret|
    ensures index + |secret| <= |data|
    ensures Splits(redact, data[index..], MASK, data[index + |secret|..], final)
  {
    var head, tail := data[index..], data[index + |secret|..];
    assert head[|secret|..] == tail;
    forall rest | final ==> rest == []
      ensures SplitsBefore(redact, head, MASK, tail, rest)
    {
      LongestIsDecided(secrets, data, index, secret, rest);
      MaskSplits(redact, secrets, head, secret, rest);
    }
  }

  lemma MaskSplits(redact: Bytes -> Bytes, secrets: seq<Bytes>, head: Bytes, secret: Bytes, rest: Bytes)
    requires Computes(redact, secrets) && secret != [] && secret <= head && Longest(secrets, head + rest) == secret
    ensures SplitsBefore(redact, head, MASK, head[|secret|..], rest)
  {
    var whole, tail := head + rest, head[|secret|..] + rest;
    RestAfter(head, secret, rest);
    RedactMasked(secrets, whole, secret);
    assert redact(whole) == Redact(secrets, whole) && redact(tail) == Redact(secrets, tail);
  }

  lemma RestAfter(head: Bytes, secret: Bytes, rest: Bytes)
    requires secret <= head
    ensures (head + rest)[|secret|..] == head[|secret|..] + rest
  {
  }

  lemma RedactMasked(secrets: seq<Bytes>, data: Bytes, secret: Bytes)
    requires secret != [] && Longest(secrets, data) == secret
    ensures Redact(secrets, data) == MASK + Redact(secrets, data[|secret|..])
  {
  }

  lemma LongestIsDecided(secrets: seq<Bytes>, data: Bytes, index: nat, secret: Bytes, rest: Bytes)
    requires NonEmptySecrets(secrets) && secret in secrets && OccursAt(data, secret, index)
    requires rest == [] || index + Overlap(secrets) < |data|
    requires forall s | s in secrets && OccursAt(data, s, index) :: |s| <= |secret|
    ensures Longest(secrets, data[index..] + rest) == secret
  {
    var d := data[index..] + rest;
    var m := Longest(secrets, d);
    assert secret <= d;
    assert (data + rest)[index..] == d;
    if rest != [] { LaterBytesDoNotMatter(data, rest, m, index); } else { assert d == data[index..]; }
    assert m == d[..|m|] == d[..|secret|] == secret;
  }

  /** One turn of the scanning loop that found a match. */
  lemma StepMatch(redact: Bytes -> Bytes, secrets: seq<Bytes>, data: Bytes, safe: Bytes, position: nat, next: Match, final: bool)
    requires Computes(redact, secrets)
    requires NonEmptySecrets(secrets) && next.Found? && next.secret in secrets && OccursAt(data, next.secret, next.index)
    requires position <= next.index && NoneStartsIn(secrets, data, position, next.index)
    requires forall s | s in secrets && OccursAt(data, s, next.index) :: |s| <= |next.secret|
    requires final || next.index + Overlap(secrets) < |data|
    requires Splits(redact, data, safe, data[position..], final)
    ensures next.index + |next.secret| <= |data|
    ensures Splits(redact, data, safe + data[position..next.index] + MASK, data[next.index + |next.secret|..], final)
  {
    var index := next.index;
    StepPlain(redact, secrets, data, position, index, final);
    SplitsCompose(redact, data, safe, data[position..], data[position..index], data[index..], final);
    StepMask(redact, secrets, data, index, next.secret, final);
    SplitsCompose(redact, data, safe + data[position..index], data[index..], MASK, data[index + |next.secret|..], final);
  }

  /** `_RedactingWriter`: `log` is everything written so far, before text decoding. */
  class RedactingWriter {
    const secrets: seq<Bytes>
    const overlap: nat
    var carry: Bytes
    var log: Bytes
    ghost var input: Bytes
    ghost const redact: Bytes -> Bytes

    ghost predicate Valid()
      reads this
    {
      && NonEmptySecrets(secrets) && overlap == Overlap(secrets)
      && Computes(redact, secrets)
      && |carry| <= overlap
      && Splits(redact, input, log, carry, false)
    }

    constructor (secrets: seq<Bytes>)
      requires NonEmptySecrets(secrets)
      ensures Valid() && this.secrets == secrets && input == [] && log == []
    {
      this.secrets := secrets;
      this.overlap := Overlap(secrets);
      this.redact := Redactor(secrets);
      carry, log, input := [], [], [];
      new;
      forall rest ensures SplitsBefore(redact, input, log, carry, rest) {}
    }

    /** The log only grows, at most `overlap` bytes are ever held back, and the final
        write leaves exactly what redacting the whole input would have written. */
    method Write(chunk: Bytes, final: bool)
      requires Valid()
      modifies this
      ensures input == old(input) + chunk
      ensures old(log) <= log
      ensures !final ==> Valid()
      ensures final ==> log == Redact(secrets, input) && carry == []
    {
      SplitsExtend(redact, input, log, carry, chunk, final);
      input := input + chunk;
      carry := carry + chunk;
      var flushLimit := if final then |carry| else if |carry| < overlap then 0 else |carry| - overlap;
      var safe, position := RedactUpTo(redact, secrets, carry, flushLimit, final);
      SplitsCompose(redact, input, log, carry, safe, carry[position..], final);
      carry := carry[position..];
      log := log + safe;
      if final {
        Finished(redact, secrets, input, log, carry);
      }
    }
  }

  lemma Finished(redact: Bytes -> Bytes, secrets: seq<Bytes>, input: Bytes, log: Bytes, carry: Bytes)
    requires Computes(redact, secrets) && Splits(redact, input, log, carry, true)
    ensures Redact(secrets, input) == log + Redact(secrets, carry)
  {
    assert SplitsBefore(redact, input, log, carry, []);
    assert input + [] == input && carry + [] == carry;
  }

  /** The scanning loop of `write`. */
  method RedactUpTo(ghost redact: Bytes -> Bytes, secrets: seq<Bytes>, carry: Bytes, flushLimit: nat, final: bool) returns (safe: Bytes, position: nat)
    requires Computes(redact, secrets) && NonEmptySecrets(secrets) && flushLimit <= |carry|
    requires final || flushLimit == 0 || flushLimit + Overlap(secrets) <= |carry|
    ensures flushLimit <= position <= |carry|
    ensures Splits(redact, carry, safe, carry[position..], final)
  {
    safe, position := [], 0;
    assert carry[0..] == carry;
    while position < flushLimit
      invariant position <= |carry|
      invariant Splits(redact, carry, safe, carry[position..], final)
      decreases |carry| - position
    {
      safe, position := RedactOnce(redact, secrets, carry, flushLimit, final, safe, position);
    }
  }

  /** One turn of the loop: up to the next match and past it, or to the end of the window. */
  method RedactOnce(
    ghost redact: Bytes -> Bytes, secrets: seq<Bytes>, carry: Bytes, flushLimit: nat, ghost final: bool, safe: Bytes, position: nat)
    returns (more: Bytes, after: nat)
    requires Computes(redact, secrets) && NonEmptySecrets(secrets) && position < flushLimit <= |carry|
    requires final || flushLimit + Overlap(secrets) <= |carry|
    requires Splits(redact, carry, safe, carry[position..], final)
    ensures position < after <= |carry|
    ensures Splits(redact, carry, more, carry[after..], final)
  {
    var next := NextMatch(secrets, carry, position, flushLimit);
    if next.NoMatch? {
      StepPlain(redact, secrets, carry, position, flushLimit, final);
      SplitsCompose(redact, carry, safe, carry[position..], carry[position..flushLimit], carry[flushLimit..], final);
      return safe + carry[position..flushLimit], flushLimit;
    }
    var index, secret := next.index, next.secret;
    StepMatch(redact, secrets, carry, safe, position, next, final);
    return safe + carry[position..index] + MASK, index + |secret|;
  }

  function Flatten(chunks: seq<Bytes>): Bytes {
    if chunks == [] then [] else Flatten(chunks[..|chunks| - 1]) + chunks[|chunks| - 1]
  }

  lemma FlattenNext(chunks: seq<Bytes>, i: nat)
    requires i < |chunks|
    ensures Flatten(chunks[..i + 1]) == Flatten(chunks[..i]) + chunks[i]
  {
    assert chunks[..i + 1][..i] == chunks[..i];
  }

  /** `_drain_output`: every split of the process output into reads gives the log that
      redacting the whole output would. */
  method DrainOutput(chunks: seq<Bytes>, secrets: seq<Bytes>) returns (log: Bytes)
    requires NonEmptySecrets(secrets)
    ensures log == Redact(secrets, Flatten(chunks))
  {
    var writer := new RedactingWriter(secrets);
    for i := 0 to |chunks|
      invariant writer.Valid() && fresh(writer) && writer.secrets == secrets
      invariant writer.input == Flatten(chunks[..i])
    {
      FlattenNext(chunks, i);
      writer.Write(chunks[i], false);
    }
    assert chunks[..|chunks|] == chunks && Flatten(chunks) + [] == Flatten(chunks);
    writer.Write([], true);
    log := writer.log;
  }
}
