/** The payload of a synthetic end (`projection/liveness.rs`), read back. */
module EndedPayloads {
  import opened Protocol
  import opened Text
  import opened Store

  /** The reason a name stands for. */
  function ReasonOf(name: string): Option<EndedReason> {
    if name == "no_pid_at_upgrade" then Some(NoPidAtUpgrade)
    else if name == "pid_dead" then Some(PidDead)
    else if name == "pid_superseded" then Some(PidSuperseded)
    else None
  }

  predicate IsDigit(c: char) {
    '0' <= c <= '9'
  }

  predicate IsDigits(s: string) {
    s != "" && forall i :: 0 <= i < |s| ==> IsDigit(s[i])
  }

  /** The number that decimal digits spell. */
  function Value(s: string): nat
    requires IsDigits(s)
  {
    var low := s[|s| - 1] as int - '0' as int;
    if |s| == 1 then low else Value(s[..|s| - 1]) * 10 + low
  }

  lemma {:induction false} DecimalReads(n: nat)
    ensures IsDigits(Decimal(n)) && Value(Decimal(n)) == n && Decimal(n)[0] != '-'
  {
    DigitReads(n % 10);
    if n >= 10 {
      DecimalReads(n / 10);
      var init, all := Decimal(n / 10), Decimal(n);
      assert all[..|init|] == init && all[|init|] == "0123456789"[n % 10];
    }
  }

  lemma DigitReads(d: nat)
    requires d < 10
    ensures "0123456789"[d] as int == '0' as int + d
  {
  }

  function ReadInt(s: string): Option<int> {
    if s != "" && s[0] == '-' then (if IsDigits(s[1..]) then Some(-(Value(s[1..]) as int)) else None)
    else if IsDigits(s) then Some(Value(s))
    else None
  }

  function ReadPid(s: string): Option<Option<int>> {
    if s == "null" then Some(None)
    else
      match ReadInt(s)
      case None => None
      case Some(n) => Some(Some(n))
  }

  /** What a payload says: the reason, the pid if any, and the time of the observation. */
  datatype EndReport = EndReport(reason: EndedReason, pid: Option<int>, observedAt: int)

  const REASON := "{\"reason\":\""
  const PID := "\",\"pid\":"
  const TIME := ",\"observed_at_ms\":"

  /** A reader of the three fields, in their order. */
  function ReadEnded(text: string): Option<EndReport> {
    if !(REASON <= text) then None
    else
      var a := text[|REASON|..];
      match Find(a, PID)
      case None => None
      case Some(i) =>
        var b := a[i + |PID|..];
        match Find(b, TIME)
        case None => None
        case Some(j) =>
          var c := b[j + |TIME|..];
          if c == "" || c[|c| - 1] != '}' then None
          else Combine(ReasonOf(a[..i]), ReadPid(b[..j]), ReadInt(c[..|c| - 1]))
  }

  function Combine(reason: Option<EndedReason>, pid: Option<Option<int>>, at: Option<int>): Option<EndReport> {
    if reason.None? || pid.None? || at.None? then None else Some(EndReport(reason.value, pid.value, at.value))
  }

  lemma FreeOfSkips(s: string, pat: string)
    requires pat != "" && pat[0] !in s
    ensures Skips(s, pat)
  {
    forall i: nat | i < |s| ensures DiffersAt(s, i, pat) {
      assert s[i + 0] in s && s[i + 0] != pat[0];
    }
  }

  lemma ReasonReads(r: EndedReason)
    ensures ReasonOf(ReasonText(r)) == Some(r) && '"' !in ReasonText(r)
  {
  }

  function PidText(pid: Option<Pid>): string {
    if pid.Some? then Decimal(pid.value) else "null"
  }

  function TimeText(at: Millis): string {
    var ms: int := at;
    if ms < 0 then "-" + Decimal(-ms) else Decimal(ms)
  }

  lemma PidReads(pid: Option<Pid>)
    ensures ReadPid(PidText(pid)) == Some(if pid.None? then None else Some(pid.value as int))
    ensures ',' !in PidText(pid)
  {
    if pid.Some? {
      DecimalReads(pid.value);
      assert IsDigit(Decimal(pid.value)[0]) && Decimal(pid.value)[0] != 'n';
    }
  }

  lemma SignReads(digits: string)
    requires IsDigits(digits) && digits[0] != '-'
    ensures ReadInt(digits) == Some(Value(digits)) && ReadInt("-" + digits) == Some(-(Value(digits) as int))
  {
    var s := "-" + digits;
    assert s[0] == '-' && s[1..] == digits;
  }

  lemma TimeReads(at: Millis)
    ensures ReadInt(TimeText(at)) == Some(at as int)
  {
    var ms: int := at;
    var size: nat := if ms < 0 then -ms else ms;
    DecimalReads(size);
    SignReads(Decimal(size));
  }

  /** Reading the payload gives back why the session ended, on which pid, and when that was observed. */
  lemma EndedPayloadRoundTrip(reason: EndedReason, pid: Option<Pid>, observedAt: Millis)
    ensures ReadEnded(EndedPayload(reason, pid, observedAt).text) ==
      Some(EndReport(reason, if pid.None? then None else Some(pid.value as int), observedAt as int))
    ensures EndedPayload(reason, pid, observedAt).notificationTag == None
  {
    ReasonReads(reason);
    PidReads(pid);
    TimeReads(observedAt);
    PartsRead(ReasonText(reason), PidText(pid), TimeText(observedAt));
    PayloadParts(reason, pid, observedAt);
  }

  lemma PayloadParts(reason: EndedReason, pid: Option<Pid>, observedAt: Millis)
    ensures EndedPayload(reason, pid, observedAt).text ==
      REASON + (ReasonText(reason) + PID + (PidText(pid) + TIME + (TimeText(observedAt) + "}")))
  {
    Regroup(REASON, ReasonText(reason), PID, PidText(pid), TIME, TimeText(observedAt), "}");
  }

  lemma Regroup(a: string, b: string, c: string, d: string, e: string, f: string, g: string)
    ensures a + b + c + d + e + f + g == a + (b + c + (d + e + (f + g)))
  {
  }

  lemma PartsRead(r: string, p: string, t: string)
    requires '"' !in r && ',' !in p
    ensures ReadEnded(REASON + (r + PID + (p + TIME + (t + "}")))) == Combine(ReasonOf(r), ReadPid(p), ReadInt(t))
  {
    var c := t + "}";
    var b := p + TIME + c;
    var a := r + PID + b;
    var text := REASON + a;
    assert REASON <= text && text[|REASON|..] == a;
    FreeOfSkips(r, PID);
    FindHere(a, r, PID, b);
    FreeOfSkips(p, TIME);
    FindHere(b, p, TIME, c);
    assert c[..|c| - 1] == t;
  }
}
