/** One session's message log (internal/store/conversation_store.go). */
module Conversation {
  import opened Common

  datatype Role = System | User | Assistant | Tool | Other(name: string)

  datatype Stored = Stored(role: Role, content: string)

  /** What the query returns: at most `limit` messages, newest first. */
  function NewestFirst(log: seq<Stored>, limit: nat): seq<Stored> {
    seq(Min(limit, |log|), i requires 0 <= i < Min(limit, |log|) => log[|log| - 1 - i])
  }

  /** The last messages in the order they were said. */
  function Recent(log: seq<Stored>, limit: nat): seq<Stored> {
    log[|log| - Min(limit, |log|)..]
  }

  class Session {
    var log: seq<Stored>

    constructor ()
      ensures log == []
    {
      log := [];
    }

    method SaveMessage(role: Role, content: string, fault: bool) returns (ok: bool)
      modifies this
      ensures ok == !fault
      ensures log == if fault then old(log) else old(log) + [Stored(role, content)]
    {
      ok := !fault;
      if !fault {
        log := log + [Stored(role, content)];
      }
    }

    method RecentMessages(limit: nat) returns (rows: array<Stored>)
      ensures fresh(rows) && rows[..] == Recent(log, limit)
    {
      var found := NewestFirst(log, limit);
      rows := new Stored[|found|](i requires 0 <= i < |found| => found[i]);
      Reverse(rows);
      assert forall k | 0 <= k < rows.Length :: rows[k] == Recent(log, limit)[k];
    }
  }

  /** The query's rows come newest first; they are swapped in place from both ends. */
  method Reverse(rows: array<Stored>)
    modifies rows
    ensures forall k | 0 <= k < rows.Length :: rows[k] == old(rows[rows.Length - 1 - k])
  {
    var i, j := 0, rows.Length - 1;
    while i < j
      invariant i + j == rows.Length - 1 && 0 <= i <= rows.Length && -1 <= j
      invariant forall k | 0 <= k < i || j < k < rows.Length :: rows[k] == old(rows[rows.Length - 1 - k])
      invariant forall k | i <= k <= j :: rows[k] == old(rows[k])
    {
      rows[i], rows[j] := rows[j], rows[i];
      i, j := i + 1, j - 1;
    }
  }
}
