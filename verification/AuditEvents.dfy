/**
 The completeness decision of auditItem over the records of one event. A record comes with its type
 and its pairs already parsed and decoded; a line without an audit header has the empty type.
 */
module AuditEvents {
  import opened Wrappers
  import opened Envelope

  datatype AuditRecord = AuditRecord(text: string, recordType: string, pairs: map<string, string>)

  const MAX_ARGUMENTS := 256

  // ---------------------------------------------------------------- numbers

  predicate AreDigits(s: string) {
    s != [] && forall i | 0 <= i < |s| :: '0' <= s[i] <= '9'
  }

  function DigitsValue(s: string): nat
    requires forall i | 0 <= i < |s| :: '0' <= s[i] <= '9'
  {
    if s == [] then 0
    else 10 * DigitsValue(s[..|s| - 1]) + (s[|s| - 1] - '0') as nat
  }

  /** strconv.Atoi: an optional sign, decimal digits, and the range of a 64-bit integer. */
  function Atoi(s: string): Option<int> {
    var digits := if s != [] && (s[0] == '+' || s[0] == '-') then s[1..] else s;
    if !AreDigits(digits) then None
    else
      var magnitude: int := DigitsValue(digits);
      var value := if s[0] == '-' then -magnitude else magnitude;
      if -0x8000_0000_0000_0000 <= value < 0x8000_0000_0000_0000 then Some(value) else None
  }

  // ---------------------------------------------------------------- what the decision depends on

  predicate HasType(records: seq<AuditRecord>, recordType: string) {
    exists i | 0 <= i < |records| :: records[i].recordType == recordType
  }

  /** The value of a key in the last record of a type, empty if the record does not have the key. */
  function LastValue(records: seq<AuditRecord>, recordType: string, key: string): string {
    if records == [] then ""
    else
      var last := records[|records| - 1];
      if last.recordType == recordType then ValueAt(last.pairs, key)
      else LastValue(records[..|records| - 1], recordType, key)
  }

  function ValueAt(pairs: map<string, string>, key: string): string {
    if key in pairs then pairs[key] else ""
  }

  /** The execution records are merged: the last one that has a key decides. */
  function Argument(records: seq<AuditRecord>, key: string): Option<string> {
    if records == [] then None
    else
      var last := records[|records| - 1];
      if last.recordType == "EXECVE" && key in last.pairs then Some(last.pairs[key])
      else Argument(records[..|records| - 1], key)
  }

  function ArgumentKey(i: nat): string { "a" + Decimal(i) }

  /** The argument count does not parse, is too large, or one of the arguments is not there. */
  predicate ArgumentsMissing(records: seq<AuditRecord>) {
    var argument := Argument(records, "argc");
    var argc := Atoi(if argument.Some? then argument.value else "");
    argc.None? || argc.value > MAX_ARGUMENTS ||
    exists i | 0 <= i < argc.value :: Argument(records, ArgumentKey(i)).None?
  }

  /** An execution is recorded without the system call that it belongs to. */
  predicate MissesSyscall(records: seq<AuditRecord>) {
    HasType(records, "EXECVE") && !HasType(records, "SYSCALL")
  }

  /** A successful execution whose command line can be taken neither from a title nor from the arguments. */
  predicate MissesArguments(records: seq<AuditRecord>) {
    LastValue(records, "CONFIG_CHANGE", "enabled") != "0" &&
    LastValue(records, "SYSCALL", "success") == "yes" &&
    HasType(records, "EXECVE") && !HasType(records, "PROCTITLE") && ArgumentsMissing(records)
  }

  // ---------------------------------------------------------------- the loops

  /** The locals of auditItem after some records. */
  datatype Scan = Scan(
    syscall: Option<map<string, string>>, execution: Option<map<string, string>>, title: bool, disabled: bool)

  ghost predicate Scanned(records: seq<AuditRecord>, s: Scan) {
    (s.syscall.Some? <==> HasType(records, "SYSCALL")) &&
    (s.syscall.Some? ==> forall k :: ValueAt(s.syscall.value, k) == LastValue(records, "SYSCALL", k)) &&
    (s.syscall.None? ==> forall k :: LastValue(records, "SYSCALL", k) == "") &&
    (s.execution.Some? <==> HasType(records, "EXECVE")) &&
    MergedInto(records, if s.execution.Some? then s.execution.value else map[]) &&
    (s.title <==> HasType(records, "PROCTITLE")) &&
    (s.disabled <==> LastValue(records, "CONFIG_CHANGE", "enabled") == "0")
  }

  ghost predicate MergedInto(records: seq<AuditRecord>, merged: map<string, string>) {
    forall k :: Argument(records, k) == if k in merged then Some(merged[k]) else None
  }

  function ScanRecord(s: Scan, record: AuditRecord): Scan {
    if record.recordType == "SYSCALL" then s.(syscall := Some(record.pairs))
    else if record.recordType == "EXECVE" then
      s.(execution := Some((if s.execution.Some? then s.execution.value else map[]) + record.pairs))
    else if record.recordType == "PROCTITLE" then s.(title := true)
    else if record.recordType == "CONFIG_CHANGE" then s.(disabled := ValueAt(record.pairs, "enabled") == "0")
    else s
  }

  lemma HasTypeNext(records: seq<AuditRecord>, record: AuditRecord, recordType: string)
    ensures HasType(records + [record], recordType) <==> HasType(records, recordType) || record.recordType == recordType
  {
    var all := records + [record];
    if HasType(records, recordType) {
      var i :| 0 <= i < |records| && records[i].recordType == recordType;
      assert all[i].recordType == recordType;
    }
    assert all[|records|] == record;
  }

  lemma LastValueNext(records: seq<AuditRecord>, record: AuditRecord, recordType: string, key: string)
    ensures LastValue(records + [record], recordType, key)
         == if record.recordType == recordType then ValueAt(record.pairs, key) else LastValue(records, recordType, key)
  {
    assert (records + [record])[..|records|] == records;
  }

  lemma MergedNext(records: seq<AuditRecord>, record: AuditRecord, merged: map<string, string>)
    requires MergedInto(records, merged)
    ensures MergedInto(records + [record], if record.recordType == "EXECVE" then merged + record.pairs else merged)
  {
    assert (records + [record])[..|records|] == records;
  }

  lemma ScanNext(records: seq<AuditRecord>, s: Scan, record: AuditRecord)
    requires Scanned(records, s)
    ensures Scanned(records + [record], ScanRecord(s, record))
  {
    HasTypeNext(records, record, "SYSCALL");
    HasTypeNext(records, record, "EXECVE");
    HasTypeNext(records, record, "PROCTITLE");
    MergedNext(records, record, if s.execution.Some? then s.execution.value else map[]);
    LastValueNext(records, record, "CONFIG_CHANGE", "enabled");
    forall k
      ensures LastValue(records + [record], "SYSCALL", k)
           == if record.recordType == "SYSCALL" then ValueAt(record.pairs, k) else LastValue(records, "SYSCALL", k)
    {
      LastValueNext(records, record, "SYSCALL", k);
    }
  }

  method ScanRecords(records: seq<AuditRecord>) returns (s: Scan)
    ensures Scanned(records, s)
  {
    s := Scan(None, None, false, false);
    for i := 0 to |records|
      invariant Scanned(records[..i], s)
    {
      ScanNext(records[..i], s, records[i]);
      assert records[..i + 1] == records[..i] + [records[i]];
      s := ScanRecord(s, records[i]);
    }
    assert records[..|records|] == records;
  }

  /** The loop that rebuilds the command line from the arguments. */
  method JoinArguments(execution: map<string, string>, ghost records: seq<AuditRecord>) returns (complete: bool)
    requires MergedInto(records, execution)
    ensures complete <==> !ArgumentsMissing(records)
  {
    assert Argument(records, "argc") == if "argc" in execution then Some(execution["argc"]) else None;
    var argc := Atoi(ValueAt(execution, "argc"));
    if argc.None? || argc.value > MAX_ARGUMENTS {
      return false;
    }
    complete := HasArguments(execution, records, argc.value);
  }

  method HasArguments(execution: map<string, string>, ghost records: seq<AuditRecord>, count: int)
    returns (complete: bool)
    requires MergedInto(records, execution)
    ensures complete <==> forall j | 0 <= j < count :: Argument(records, ArgumentKey(j)).Some?
  {
    complete := true;
    var i := 0;
    while i < count
      invariant 0 <= i && (count >= 0 ==> i <= count) && (count < 0 ==> i == 0)
      invariant complete <==> forall j | 0 <= j < i :: Argument(records, ArgumentKey(j)).Some?
    {
      var next := i + 1;
      assert Argument(records, ArgumentKey(i)).Some? <==> ArgumentKey(i) in execution;
      if ArgumentKey(i) !in execution {
        complete := false;
      }
      i := next;
    }
  }

  /** auditItem: whether the event is complete in the end, and the reason it shows if it is not. */
  method Decide(records: seq<AuditRecord>, complete: bool, reason: string) returns (whole: bool, why: string)
    ensures whole == (complete && !MissesSyscall(records) && !MissesArguments(records))
    ensures why == if complete && MissesSyscall(records) then "missing_syscall" else reason
  {
    var s := ScanRecords(records);
    whole, why := complete, reason;
    if whole && s.execution.Some? && s.syscall.None? {
      whole, why := false, "missing_syscall";
    }
    if whole && !s.disabled && s.syscall.Some? {
      assert ValueAt(s.syscall.value, "success") == LastValue(records, "SYSCALL", "success");
      if ValueAt(s.syscall.value, "success") == "yes" && s.execution.Some? && !s.title {
        whole := JoinArguments(s.execution.value, records);
      }
    }
  }
}
