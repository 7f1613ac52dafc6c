/** How long a tar archive is in the pax interchange format of POSIX.1-2001, as Python's
    tarfile module writes it (benchmark_bundle.py, `_write_tar`). */
module TarFormat {
  import opened Decimal

  const BLOCK := 512
  const RECORD := 10240
  const LONGEST_NAME := 100
  const LARGEST_SIZE := 8 * 1024 * 1024 * 1024  // one more than eleven octal digits hold

  function RoundUp(n: nat, unit: nat): nat
    requires unit > 0
  {
    (n + unit - 1) / unit * unit
  }

  /** The length of a pax record "length keyword=value", which counts its own digits. */
  function PaxRecord(keyword: nat, value: nat): nat {
    var rest := keyword + value + 3;
    var n := rest + |Number(rest)|;
    if |Number(n)| == |Number(rest)| then n else n + 1
  }

  /** The pax records of a member: its name when the header has no room for it, or no way
      to write it, and its size likewise. */
  function PaxRecords(name: string, size: nat): nat {
    (if |name| > LONGEST_NAME || (exists i :: 0 <= i < |name| && name[i] >= 128 as char) then PaxRecord(4, |name|) else 0) +
    (if size >= LARGEST_SIZE then PaxRecord(4, |Number(size)|) else 0)
  }

  /** A header, with one more header and its records in front where they are needed, and
      the content, all in whole blocks. */
  function MemberSize(name: string, size: nat): nat {
    var records := PaxRecords(name, size);
    (if records > 0 then BLOCK + RoundUp(records, BLOCK) else 0) + BLOCK + RoundUp(size, BLOCK)
  }

  /** Two empty blocks end the archive, which fills whole records. */
  function ArchiveSize(members: nat): nat {
    RoundUp(members + 2 * BLOCK, RECORD)
  }

  lemma RoundUpBounds(n: nat, unit: nat)
    requires unit > 0
    ensures n <= RoundUp(n, unit) < n + unit
  {
    var q := (n + unit - 1) / unit;
    assert n + unit - 1 == q * unit + (n + unit - 1) % unit;
  }

  lemma PaxRecordBounds(keyword: nat, value: nat)
    requires keyword + value + 3 < 1000
    ensures keyword + value + 4 <= PaxRecord(keyword, value) <= keyword + value + 7
  {
    var rest := keyword + value + 3;
    assert Power(3) == 1000 by { assert Power(1) == 10 && Power(2) == 100; }
    NumberLength(rest, 3);
  }

  /** An empty file with a long name. */
  lemma LongName(name: string)
    requires |name| >= 1025
    ensures MemberSize(name, 0) >= 2560
  {
    var records := PaxRecords(name, 0);
    assert records >= 1025 + 8;
    RoundUpBlocks(records, 2);
  }

  lemma RoundUpBlocks(n: nat, blocks: nat)
    requires n > blocks * BLOCK
    ensures RoundUp(n, BLOCK) >= (blocks + 1) * BLOCK
  {
  }

  /** An empty file whose name needs one block of records. */
  lemma MiddlingName(name: string)
    requires LONGEST_NAME < |name| <= 400
    ensures MemberSize(name, 0) == 1536
  {
    PaxRecordBounds(4, |name|);
    assert 0 < PaxRecords(name, 0) <= BLOCK;
  }

  /** A record says how long it is, itself with its number, two separators and a newline. */
  lemma PaxRecordIsItsLength(keyword: nat, value: nat)
    ensures PaxRecord(keyword, value) == |Number(PaxRecord(keyword, value))| + 1 + keyword + 1 + value + 1
  {
    var rest := keyword + value + 3;
    var n := rest + |Number(rest)|;
    FewDigits(rest);
    assert |Number(10 * rest)| == |Number(rest)| + 1;
    MoreDigits(rest, n);
    MoreDigits(n, n + 1);
    MoreDigits(n + 1, 10 * rest);
  }

  predicate IsPlain(name: string) {
    |name| <= 100 && forall c | c in name :: c as int <= 127
  }

  /** A short plain name and a size of up to eleven octal digits need one header and the
      content in whole blocks; any other name or size has one more header and its records. */
  lemma MembersTake(name: string, size: nat)
    ensures IsPlain(name) && size < 8_589_934_592 ==> MemberSize(name, size) == 512 + RoundUp(size, 512)
    ensures !IsPlain(name) && size < 8_589_934_592 ==>
              MemberSize(name, size) == 1024 + RoundUp(PaxRecord(|"path"|, |name|), 512) + RoundUp(size, 512)
    ensures IsPlain(name) && size >= 8_589_934_592 ==>
              MemberSize(name, size) == 1024 + RoundUp(PaxRecord(|"size"|, |Number(size)|), 512) + RoundUp(size, 512)
    ensures !IsPlain(name) && size >= 8_589_934_592 ==>
              MemberSize(name, size) ==
              1024 + RoundUp(PaxRecord(|"path"|, |name|) + PaxRecord(|"size"|, |Number(size)|), 512) + RoundUp(size, 512)
  {
    if IsPlain(name) {
      forall i | 0 <= i < |name| ensures name[i] < 128 as char { assert name[i] in name; }
    }
  }

  /** Whole blocks, and no more than are needed. */
  lemma BlocksAreWhole(n: nat)
    ensures RoundUp(n, 512) % 512 == 0 && n <= RoundUp(n, 512) < n + 512
  {
    RoundUpBounds(n, 512);
  }

  /** Two empty blocks at the end, and whole records. */
  lemma ArchiveEnds(members: nat)
    ensures ArchiveSize(members) % 10240 == 0 && members + 1024 <= ArchiveSize(members) < members + 1024 + 10240
  {
    RoundUpBounds(members + 1024, 10240);
  }
}
