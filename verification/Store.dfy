/** The results row of a poll and its idempotent flush: one conditional update. */
module Store {
  import opened Totals

  datatype Row = Active | Completed(results: Results)

  datatype Reply = Written | AlreadyCompleted | NotFound

  function FlushRow(rows: map<string, Row>, id: string, r: Results): map<string, Row> {
    if id in rows && rows[id].Active? then rows[id := Completed(r)] else rows
  }

  function FlushReply(rows: map<string, Row>, id: string): Reply {
    if id !in rows then NotFound else if rows[id].Active? then Written else AlreadyCompleted
  }

  datatype Flush = Flush(id: string, results: Results)

  function Run(rows: map<string, Row>, fs: seq<Flush>): map<string, Row> {
    if fs == [] then rows
    else FlushRow(Run(rows, fs[..|fs| - 1]), fs[|fs| - 1].id, fs[|fs| - 1].results)
  }

  // How the i-th flush of a run is answered.
  function ReplyAt(rows: map<string, Row>, fs: seq<Flush>, i: nat): Reply
    requires i < |fs|
  {
    FlushReply(Run(rows, fs[..i]), fs[i].id)
  }

  /** However many flushes of a poll are tried, in whatever order, the row holds the results of
      the first one that found it active, for good. */
  lemma {:induction false} FirstFlushWins(rows: map<string, Row>, fs: seq<Flush>, i: nat)
    requires i < |fs| && ReplyAt(rows, fs, i) == Written
    ensures var after := Run(rows, fs); fs[i].id in after && after[fs[i].id] == Completed(fs[i].results)
  {
    var init := fs[..|fs| - 1];
    if i == |init| {
      assert fs[..i] == init;
    } else {
      assert init[..i] == fs[..i];
      FirstFlushWins(rows, init, i);
    }
  }

  /** At most one flush of a poll is answered "written". */
  lemma WrittenOnce(rows: map<string, Row>, fs: seq<Flush>, i: nat, j: nat)
    requires i < j < |fs| && fs[i].id == fs[j].id
    requires ReplyAt(rows, fs, i) == Written
    ensures ReplyAt(rows, fs, j) == AlreadyCompleted
  {
    assert fs[..j][..i] == fs[..i];
    FirstFlushWins(rows, fs[..j], i);
  }

  class Storage {
    var rows: map<string, Row>

    constructor ()
      ensures rows == map[]
    {
      rows := map[];
    }

    /** The update is one atomic statement; the second query only tells why nothing changed. */
    method FlushResults(id: string, results: Results) returns (reply: Reply)
      modifies this
      ensures rows == FlushRow(old(rows), id, results)
      ensures reply == FlushReply(old(rows), id)
    {
      var affected := 0;
      if id in rows && rows[id].Active? {
        rows := rows[id := Completed(results)];
        affected := 1;
      }
      if affected > 0 {
        return Written;
      }
      if id !in rows {
        return NotFound;
      }
      return AlreadyCompleted;
    }
  }
}
