/**
 * The access log (src/logger.rs): one line per call, whose severity is chosen
 * from the numeric status code alone. The line is returned as a value; where it
 * is written is the logging backend's business.
 */
module Logger {
  import opened Bytes
  import opened Net
  import opened Status

  datatype Severity = Info | Warn

  /** `remote=<addr> status=<code> request=<req>` at a severity. */
  datatype Line = Line(severity: Severity, remote: PeerAddr, code: nat, request: Str)

  /** `logger(addr, stat, req)`: codes 20 to 29 at info, every other code at warn. */
  function Log(addr: PeerAddr, stat: Status, req: Str): (l: Line)
    ensures l.remote == addr && l.code == Code(stat) && l.request == req
    ensures l.severity == Info <==> 20 <= Code(stat) <= 29
  {
    var code := Code(stat);
    if 20 <= code <= 29 then Line(Info, addr, code, req) else Line(Warn, addr, code, req)
  }

  /** Exactly the success category is logged at info; every failure, redirect and prompt at warn. */
  lemma InfoExactlyForSuccess(addr: PeerAddr, stat: Status, req: Str)
    ensures Log(addr, stat, req).severity == Info <==> CategoryOf(stat) == Successful
    ensures Log(addr, stat, req).severity == Info <==> stat in {Success, SuccessEndOfSession}
  {
    CodeCategory(stat);
  }

  /** Severity depends on the status only, not on the peer or the request. */
  lemma SeverityOnlyFromStatus(a1: PeerAddr, a2: PeerAddr, stat: Status, r1: Str, r2: Str)
    ensures Log(a1, stat, r1).severity == Log(a2, stat, r2).severity
  {
  }
}
