/** The access-log filter: health checks drop to DEBUG, client errors rise to WARNING and
    server errors to ERROR, and a record below the logger's level is dropped. */
module LogFilter {
  import opened Text

  const Debug: int := 10
  const Info: int := 20
  const Warning: int := 30
  const Error: int := 40

  const HealthPath := "/api/v1/health"

  /** The level names of the standard levels. */
  function LevelName(level: int): string {
    if level == Debug then "DEBUG"
    else if level == Info then "INFO"
    else if level == Warning then "WARNING"
    else if level == Error then "ERROR"
    else "Level " + IntToString(level)
  }

  /** An access-log record: the request line's host, method, path, version and status, and the
      record's level. */
  datatype AccessRecord = AccessRecord(host: string, httpMethod: string, path: string, version: string, status: int,
                                       levelName: string, levelNo: int)

  /** The level a record ends with: ERROR for a 5xx status, WARNING for 4xx, DEBUG for a
      successful health check, and its own level otherwise. */
  function FinalLevel(path: string, status: int, level: int): int {
    if status >= 500 then Error
    else if status >= 400 then Warning
    else if path == HealthPath && status == 200 then Debug
    else level
  }

  /** `filter`: the adjusted record and whether it is kept. */
  function Filter(r: AccessRecord, loggerLevel: int): (out: (bool, AccessRecord))
    ensures out.1.levelNo == FinalLevel(r.path, r.status, r.levelNo)
    ensures out.0 <==> out.1.levelNo >= loggerLevel
    ensures out.1.levelNo != r.levelNo ==> out.1.levelName == LevelName(out.1.levelNo)
    ensures out.1.(levelName := r.levelName, levelNo := r.levelNo) == r
  {
    var r1 := if r.path == HealthPath && r.status == 200 then r.(levelName := "DEBUG", levelNo := Debug) else r;
    var r2 := if r.status >= 400 then r1.(levelName := "WARNING", levelNo := Warning) else r1;
    var r3 := if r.status >= 500 then r2.(levelName := "ERROR", levelNo := Error) else r2;
    (!(r3.levelNo < loggerLevel), r3)
  }

  /** A record whose name matched its level still does after the filter. */
  lemma FilterKeepsNameConsistent(r: AccessRecord, loggerLevel: int)
    requires r.levelName == LevelName(r.levelNo)
    ensures Filter(r, loggerLevel).1.levelName == LevelName(Filter(r, loggerLevel).1.levelNo)
  {
  }

  /** With the logger at INFO, successful health checks are hidden and server errors are shown. */
  lemma HealthChecksHiddenAtInfo(r: AccessRecord)
    ensures r.path == HealthPath && r.status == 200 ==> !Filter(r, Info).0
    ensures r.status >= 500 ==> Filter(r, Info).0 && Filter(r, Info).1.levelName == "ERROR"
    ensures 400 <= r.status < 500 ==> Filter(r, Info).0 && Filter(r, Info).1.levelName == "WARNING"
  {
  }

  /** Records with statuses below 400 other than the health check keep their level, so the
      filter passes them exactly when the logger would. */
  lemma OtherRecordsUnchanged(r: AccessRecord, loggerLevel: int)
    requires r.status < 400 && !(r.path == HealthPath && r.status == 200)
    ensures Filter(r, loggerLevel) == (r.levelNo >= loggerLevel, r)
  {
  }
}
