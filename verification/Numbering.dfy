/** Numbers handed out per sequence row: what "1 to last_seq, each once, in order" means. */
module Numbering {
  import opened Domain

  datatype Issue = Issue(key: SequenceKey, number: nat)

  /** last_seq, or 0 when there is no row. */
  function Last(sequences: map<SequenceKey, nat>, key: SequenceKey): nat {
    if key in sequences then sequences[key] else 0
  }

  /** The numbers issued for one row, in order. */
  function Numbers(log: seq<Issue>, key: SequenceKey): seq<nat> {
    if log == [] then []
    else
      var last := log[|log| - 1];
      Numbers(log[..|log| - 1], key) + if last.key == key then [last.number] else []
  }

  function UpTo(n: nat): (r: seq<nat>)
    ensures |r| == n
  {
    seq(n, i requires 0 <= i < n => i + 1)
  }

  /** Every row's numbers are exactly 1 to last_seq, each once, in the order of the log. */
  ghost predicate Gapless(log: seq<Issue>, sequences: map<SequenceKey, nat>) {
    forall key :: Numbers(log, key) == UpTo(Last(sequences, key))
  }

  lemma NumbersAppend(log: seq<Issue>, i: Issue, key: SequenceKey)
    ensures Numbers(log + [i], key) == Numbers(log, key) + if i.key == key then [i.number] else []
  {
    assert (log + [i])[..|log|] == log;
  }

  /** Issuing the next number of a row keeps the numbering gapless. */
  lemma GaplessAppend(log: seq<Issue>, sequences: map<SequenceKey, nat>, key: SequenceKey)
    requires Gapless(log, sequences)
    ensures Gapless(log + [Issue(key, Last(sequences, key) + 1)], sequences[key := Last(sequences, key) + 1])
  {
    var n := Last(sequences, key) + 1;
    forall k ensures Numbers(log + [Issue(key, n)], k) == UpTo(Last(sequences[key := n], k)) {
      NumbersAppend(log, Issue(key, n), k);
      assert UpTo(n) == UpTo(n - 1) + [n];
    }
  }

  /** Where a number of a row sits among that row's numbers. */
  function Rank(log: seq<Issue>, i: nat): nat
    requires i < |log|
  {
    |Numbers(log[..i], log[i].key)|
  }

  lemma {:induction false} RankIsPosition(log: seq<Issue>, i: nat)
    requires i < |log|
    ensures Rank(log, i) < |Numbers(log, log[i].key)| && Numbers(log, log[i].key)[Rank(log, i)] == log[i].number
  {
    var n := |log| - 1;
    if i < n {
      RankIsPosition(log[..n], i);
      assert log[..n][..i] == log[..i];
    }
  }

  /** In a gapless log, later numbers of a row are larger: no number of a row comes twice. */
  lemma GaplessIncreasing(log: seq<Issue>, sequences: map<SequenceKey, nat>, i: nat, j: nat)
    requires Gapless(log, sequences) && i < j < |log| && log[i].key == log[j].key
    ensures log[i].number < log[j].number
  {
    var key := log[i].key;
    RankIsPosition(log, i);
    RankIsPosition(log, j);
    RankIsPosition(log[..j], i);
    assert log[..j][..i] == log[..i];
    assert Rank(log, i) < Rank(log, j);
    assert Numbers(log, key) == UpTo(Last(sequences, key));
  }
}
