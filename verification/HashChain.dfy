/** The ledger's hash chain (`ledger_chain.py` and both `verify_integrity` loops).
  *
  * The digest function is a parameter: every result holds for every function from text to
  * 64-character digests. None is injective, so the results return a collision where one is to blame.
  */
module HashChain {
  function Repeat(c: char, n: nat): (s: string)
    ensures |s| == n && forall i :: 0 <= i < n ==> s[i] == c
  {
    seq(n, _ => c)
  }

  const GENESIS_HASH: string := Repeat('0', 64)

  type Digest = d: string | |d| == 64 witness GENESIS_HASH

  type Hash = string -> Digest

  /** One row of table `ledger`, without its sequence number. */
  datatype Row = Row(eventId: string, payload: string, prevHash: string, entryHash: string)

  /** The text that is hashed. */
  function Preimage(prev: string, eventId: string, payload: string): string {
    prev + "|" + eventId + "|" + payload
  }

  function EntryHash(h: Hash, prev: string, eventId: string, payload: string): Digest {
    h(Preimage(prev, eventId, payload))
  }

  function RowPreimage(r: Row): string { Preimage(r.prevHash, r.eventId, r.payload) }

  /** `_last_hash`: the digest of the last row, or the genesis value. */
  function Head(rows: seq<Row>): string {
    if rows == [] then GENESIS_HASH else rows[|rows| - 1].entryHash
  }

  /** The row names the digest before it and carries its own. */
  predicate Linked(h: Hash, prev: string, r: Row) {
    r.prevHash == prev && r.entryHash == h(RowPreimage(r))
  }

  /** What `verify_integrity` checks: every row is linked to the head of the rows before it. */
  predicate Chained(h: Hash, rows: seq<Row>) {
    rows == [] || (Chained(h, rows[..|rows| - 1]) && Linked(h, Head(rows[..|rows| - 1]), rows[|rows| - 1]))
  }

  lemma {:induction false} ChainedPrefix(h: Hash, rows: seq<Row>, n: nat)
    requires Chained(h, rows) && n <= |rows|
    ensures Chained(h, rows[..n])
  {
    if n < |rows| {
      assert rows[..|rows| - 1][..n] == rows[..n];
      ChainedPrefix(h, rows[..|rows| - 1], n);
    } else {
      assert rows[..n] == rows;
    }
  }

  predicate AllZeros(s: string) { |s| == 64 && forall i :: 0 <= i < 64 ==> s[i] == '0' }

  /** Row `k` names the digest of the row before it, or 64 zeros, and carries the digest of what it says. */
  predicate Stands(h: Hash, rows: seq<Row>, k: nat)
    requires k < |rows|
  {
    var r := rows[k];
    && (if k == 0 then AllZeros(r.prevHash) else r.prevHash == rows[k - 1].entryHash)
    && r.entryHash == h(r.prevHash + "|" + r.eventId + "|" + r.payload)
  }

  predicate AllStand(h: Hash, rows: seq<Row>) { forall k :: 0 <= k < |rows| ==> Stands(h, rows, k) }

  lemma OnlyGenesis(s: string)
    ensures AllZeros(s) <==> s == GENESIS_HASH
  {
  }

  lemma StandsExactly(h: Hash, rows: seq<Row>, k: nat)
    requires k < |rows|
    ensures Stands(h, rows, k) <==> Linked(h, Head(rows[..k]), rows[k])
  {
    OnlyGenesis(rows[k].prevHash);
  }

  lemma {:induction false} ChainedExactly(h: Hash, rows: seq<Row>)
    ensures Chained(h, rows) <==> AllStand(h, rows)
  {
    if rows != [] {
      var n := |rows| - 1;
      ChainedExactly(h, rows[..n]);
      StandsExactly(h, rows, n);
      forall k | 0 <= k < n ensures Stands(h, rows, k) <==> Stands(h, rows[..n], k) {
      }
    }
  }

  /** `verify_integrity`. */
  method VerifyIntegrity(h: Hash, rows: seq<Row>) returns (ok: bool)
    ensures ok <==> Chained(h, rows)
    ensures ok <==> AllStand(h, rows)
  {
    ChainedExactly(h, rows);
    var expectedPrev := GENESIS_HASH;
    for i := 0 to |rows|
      invariant Chained(h, rows[..i]) && expectedPrev == Head(rows[..i])
    {
      assert rows[..i + 1][..i] == rows[..i] && rows[..i + 1][i] == rows[i];
      if rows[i].prevHash != expectedPrev || EntryHash(h, rows[i].prevHash, rows[i].eventId, rows[i].payload) != rows[i].entryHash {
        if Chained(h, rows) {
          ChainedPrefix(h, rows, i + 1);
        }
        return false;
      }
      expectedPrev := rows[i].entryHash;
    }
    assert rows[..|rows|] == rows;
    return true;
  }

  /** The row that `_append_ledger` inserts after `prev`. */
  function NextRow(h: Hash, prev: string, eventId: string, payload: string): Row {
    Row(eventId, payload, prev, EntryHash(h, prev, eventId, payload))
  }

  /** A row put behind a verifying ledger keeps it verifying exactly when it is the next row. */
  lemma AppendChained(h: Hash, rows: seq<Row>, r: Row)
    requires Chained(h, rows)
    ensures Chained(h, rows + [r]) <==> r == NextRow(h, Head(rows), r.eventId, r.payload)
  {
    assert (rows + [r])[..|rows|] == rows;
  }
}
