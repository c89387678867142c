/** The dead letter queue of pkg/policy/dlq.go: a bounded window of records and an append-only audit
  file. */
module DeadLetter {
  import opened Wrappers
  import opened Windows
  import opened Policy

  datatype Record = Record(
    stamp: int, ordinal: nat, sourceTopic: string, reason: Reason, details: string,
    enclave: string, classification: string, rawPayload: string)

  /** How many records a limit asks for: all that may be held if there is none or it is too high. */
  function Granted(limit: int, capacity: nat): (n: nat)
    ensures n <= capacity
  {
    if limit <= 0 || limit > capacity then capacity else limit
  }

  lemma TailIsLast(records: seq<Record>, limit: int, capacity: nat)
    requires |records| <= capacity
    ensures
      var n := |records|;
      var count := if limit <= 0 || limit > n then n else limit;
      records[n - count..] == LastN(records, Granted(limit, capacity))
  {
    assert records[0..] == records;
  }

  class DeadLetterQueue {
    var records: seq<Record>
    const maxCapacity: nat
    /** Lines of the audit file, if one is configured. */
    var audit: Option<seq<Record>>

    /** Every record quarantined so far, and whether each write to the audit file succeeded. */
    ghost var history: seq<Record>
    ghost var allWritten: bool
    ghost const auditBefore: seq<Record>

    ghost predicate Valid()
      reads this
    {
      && maxCapacity > 0
      && records == LastN(history, maxCapacity)
      && (audit.Some? && allWritten ==> audit.value == auditBefore + history)
    }

    constructor (capacity: int, auditFile: Option<seq<Record>>)
      ensures Valid() && history == [] && audit == auditFile
      ensures maxCapacity == if capacity <= 0 then 1000 else capacity
    {
      maxCapacity := if capacity <= 0 then 1000 else capacity;
      records := [];
      audit := auditFile;
      history := [];
      allWritten := true;
      auditBefore := if auditFile.Some? then auditFile.value else [];
    }

    /** The clock and the outcome of the file write are the environment's. */
    method Quarantine(sourceTopic: string, reason: Reason, details: string, enclave: string,
                      classification: string, rawPayload: string, now: int, written: bool)
      returns (rec: Record)
      requires Valid()
      modifies this
      ensures Valid()
      ensures history == old(history) + [rec]
      ensures allWritten == (old(allWritten) && written)
      ensures rec == Record(now, |old(records)| + 1, sourceTopic, reason, details, enclave, classification, rawPayload)
    {
      rec := Record(now, |records| + 1, sourceTopic, reason, details, enclave, classification, rawPayload);
      PushIsLastN(history, rec, maxCapacity);
      if |records| >= maxCapacity {
        records := records[1..];
      }
      records := records + [rec];
      if audit.Some? && written {
        audit := Some(audit.value + [rec]);
      }
      history := history + [rec];
      allWritten := allWritten && written;
    }

    /** The last `limit` records of the whole history, as far as the queue still holds them. */
    method GetRecords(limit: int) returns (result: seq<Record>)
      requires Valid()
      ensures result == LastN(history, Granted(limit, maxCapacity))
      ensures audit.Some? && allWritten && auditBefore == [] ==>
        result == LastN(audit.value, Granted(limit, maxCapacity))
    {
      hide LastN;
      var n := |records|;
      var count := if limit <= 0 || limit > n then n else limit;
      result := records[n - count..];
      TailIsLast(records, limit, maxCapacity);
      LastOfLast(history, maxCapacity, Granted(limit, maxCapacity));
      assert auditBefore == [] ==> auditBefore + history == history;
    }

    method Count() returns (n: nat)
      requires Valid()
      ensures n == if |history| <= maxCapacity then |history| else maxCapacity
    {
      n := |records|;
    }
  }
}
