/**
 * `POST /api/upload-music`: a per-address limit of ten requests a minute,
 * then the upload password, then the upload of the file over FTP into a
 * folder per day. The form parser, the FTP client and the clock are
 * parameters.
 */
module UploadMusic {
  import opened Wrappers
  import opened Strings

  /** One minute in milliseconds. */
  const RateLimitWindow: int := 60 * 1000
  const RateLimitMax: nat := 10
  const DefaultFtpDir: string := "/uploads"

  const TooManyUploads: string := "Te veel uploads, probeer het over een minuut opnieuw."
  const OnlyPost: string := "Alleen POST toegestaan."
  const PasswordNotSet: string := "UPLOAD_PASSWORD is not set in environment."
  const WrongPassword: string := "Wachtwoord is onjuist."
  const FormIncomplete: string := "Bestand en wachtwoord zijn verplicht."
  const UploadFailed: string := "Upload mislukt: "
  const UploadDone: string := "Upload geslaagd!"

  /** The JSON answer `{message}` and its status. */
  datatype Reply = Reply(status: nat, message: string)

  /** The limiter's record for one address: requests counted since the window opened at `last`. */
  datatype Window = Window(count: nat, last: int)

  /**
   * The address the limit is keyed on: the first comma-separated part of
   * `x-forwarded-for` (not trimmed), else the socket's address, else
   * `"unknown"`, each taken only when non-empty.
   */
  function ClientIp(forwardedFor: Option<string>, remote: Option<string>): (ip: string)
    ensures ip != ""
    ensures forwardedFor.Some? && Split(forwardedFor.value, ",")[0] != "" ==> ip == Split(forwardedFor.value, ",")[0]
  {
    if forwardedFor.Some? && Split(forwardedFor.value, ",")[0] != "" then Split(forwardedFor.value, ",")[0]
    else if remote.Some? && remote.value != "" then remote.value
    else "unknown"
  }

  /** The forwarded address the limit uses is a comma-free piece of the header. */
  lemma ClientIpCommaFree(forwardedFor: string, remote: Option<string>)
    requires Split(forwardedFor, ",")[0] != ""
    ensures ',' !in ClientIp(Some(forwardedFor), remote)
  {
    SplitPartsAvoidSeparator(forwardedFor, ',');
    assert Split(forwardedFor, [',']) == Split(forwardedFor, ",");
    assert Split(forwardedFor, ",")[0] in Split(forwardedFor, ",");
  }

  /** The window of `rec` is still open at `now`. */
  predicate Open(rec: Window, now: int) {
    now - rec.last < RateLimitWindow
  }

  /** The request is let through: no open window for the address, or one with fewer than ten requests. */
  predicate Allows(records: map<string, Window>, ip: string, now: int) {
    ip !in records || !Open(records[ip], now) || records[ip].count < RateLimitMax
  }

  /** The records after one request: counted in the open window, or a new window from `now`; a refused request changes nothing. */
  function NextRecords(records: map<string, Window>, ip: string, now: int): (r: map<string, Window>)
    ensures r.Keys == records.Keys + {ip}
    ensures forall other | other in records && other != ip :: r[other] == records[other]
    ensures !Allows(records, ip, now) ==> r == records
    ensures ip in records && Open(records[ip], now) && Allows(records, ip, now)
            ==> r[ip] == Window(records[ip].count + 1, records[ip].last)
    ensures ip !in records || !Open(records[ip], now) ==> r[ip] == Window(1, now)
  {
    if ip in records && Open(records[ip], now) then
      if records[ip].count >= RateLimitMax then records
      else records[ip := Window(records[ip].count + 1, records[ip].last)]
    else records[ip := Window(1, now)]
  }

  /** Every record has counted at least one and at most ten requests. */
  predicate Bounded(records: map<string, Window>) {
    forall ip | ip in records :: 1 <= records[ip].count <= RateLimitMax
  }

  /** A request keeps every count between one and ten. */
  lemma NextKeepsBounded(records: map<string, Window>, ip: string, now: int)
    requires Bounded(records)
    ensures Bounded(NextRecords(records, ip, now))
  {
  }

  /** The number of requests let through when one address sends at the given times, in order. */
  function AllowedCount(records: map<string, Window>, ip: string, times: seq<int>): nat
    decreases |times|
  {
    if times == [] then 0
    else (if Allows(records, ip, times[0]) then 1 else 0) + AllowedCount(NextRecords(records, ip, times[0]), ip, times[1..])
  }

  /** While a window stays open, it lets through no more than what its count leaves of ten. */
  lemma {:induction false} OpenWindowAllowsRest(records: map<string, Window>, ip: string, times: seq<int>)
    requires ip in records && records[ip].count <= RateLimitMax
    requires forall k | 0 <= k < |times| :: Open(records[ip], times[k])
    ensures AllowedCount(records, ip, times) <= RateLimitMax - records[ip].count
    decreases |times|
  {
    if times != [] {
      var next := NextRecords(records, ip, times[0]);
      assert next[ip].last == records[ip].last;
      OpenWindowAllowsRest(next, ip, times[1..]);
    }
  }

  /** Within one minute of a request that opens a window, at most ten requests from the address get through. */
  lemma AtMostTenPerWindow(records: map<string, Window>, ip: string, times: seq<int>)
    requires times != []
    requires ip !in records || !Open(records[ip], times[0])
    requires forall k | 0 <= k < |times| :: times[k] - times[0] < RateLimitWindow
    ensures AllowedCount(records, ip, times) <= RateLimitMax
  {
    var next := NextRecords(records, ip, times[0]);
    assert next[ip] == Window(1, times[0]);
    OpenWindowAllowsRest(next, ip, times[1..]);
  }

  /** The in-memory `rateLimitMap`. */
  class RateLimiter {
    var records: map<string, Window>

    constructor()
      ensures records == map[]
    {
      records := map[];
    }

    /** The limit's check and update for one request. */
    method Admit(ip: string, now: int) returns (allowed: bool)
      modifies this
      ensures allowed == Allows(old(records), ip, now)
      ensures records == NextRecords(old(records), ip, now)
    {
      if ip in records && now - records[ip].last < RateLimitWindow {
        var rl := records[ip];
        if rl.count >= RateLimitMax {
          return false;
        }
        records := records[ip := Window(rl.count + 1, rl.last)];
      } else {
        records := records[ip := Window(1, now)];
      }
      allowed := true;
    }
  }

  /** The uploaded file as the form parser describes it. */
  datatype FileInfo = FileInfo(filepath: string, originalFilename: string)

  /** What the form parser reports: an error, the file (first of several), the password field (first of several). */
  datatype RawForm = RawForm(error: bool, file: Option<FileInfo>, password: Option<string>)

  /** A parsed form: its file and its password. */
  datatype Form = Form(file: FileInfo, password: string)

  /** `parseForm`: rejects on an error, a missing file or a missing or empty password. */
  function ParseForm(raw: RawForm): (form: Option<Form>)
    ensures form.Some? <==> !raw.error && raw.file.Some? && raw.password.Some? && raw.password.value != ""
    ensures form.Some? ==> form.value.file == raw.file.value && form.value.password == raw.password.value
  {
    if raw.error || raw.file.None? || raw.password.None? || raw.password.value == "" then None
    else Some(Form(raw.file.value, raw.password.value))
  }

  /** `String(n).padStart(2, "0")`. */
  function Pad2(n: nat): (s: string)
    ensures n < 100 ==> |s| == 2
    ensures forall c | c in s :: IsDigit(c)
    ensures DigitsValue(s) == n
  {
    NatToStringRoundTrip(n);
    var digits := NatToString(n);
    if |digits| < 2 then
      assert digits == [DigitChar(n)];
      assert ("0" + digits)[..1] == "0";
      "0" + digits
    else digits
  }

  /** Four-digit years render as four digits. */
  lemma FourDigitYear(y: nat)
    requires 1000 <= y <= 9999
    ensures |NatToString(y)| == 4
  {
    assert |NatToString(y / 1000)| == 1;
    assert |NatToString(y / 100)| == 2;
    assert |NatToString(y / 10)| == 3;
  }

  /** The day's folder name `YYYY-MM-DD` from the local date's year, month (1 to 12) and day. */
  function DayFolder(year: nat, month: nat, day: nat): string {
    NatToString(year) + "-" + Pad2(month) + "-" + Pad2(day)
  }

  /** For a four-digit year the folder name has the fixed layout and reads back as the same date. */
  lemma DayFolderRoundTrip(year: nat, month: nat, day: nat)
    requires 1000 <= year <= 9999 && 1 <= month <= 12 && 1 <= day <= 31
    ensures var f := DayFolder(year, month, day);
            |f| == 10 && f[4] == '-' && f[7] == '-'
            && DigitsValue(f[..4]) == year && DigitsValue(f[5..7]) == month && DigitsValue(f[8..]) == day
  {
    FourDigitYear(year);
    NatToStringRoundTrip(year);
    var f := DayFolder(year, month, day);
    assert f[..4] == NatToString(year);
    assert f[5..7] == Pad2(month);
    assert f[8..] == Pad2(day);
  }

  /** The password is set, the form parses, and its password matches exactly. */
  predicate Authorized(uploadPassword: Option<string>, raw: RawForm) {
    uploadPassword.Some? && uploadPassword.value != "" && ParseForm(raw).Some?
    && ParseForm(raw).value.password == uploadPassword.value
  }

  /** The directory the day's uploads go to: `FTP_DIR` (default `/uploads`) and the day's folder. */
  function TargetDir(ftpDir: Option<string>, year: nat, month: nat, day: nat): string {
    (if ftpDir.Some? && ftpDir.value != "" then ftpDir.value else DefaultFtpDir) + "/" + DayFolder(year, month, day)
  }

  /**
   * The handler. `ftpError` is the error the FTP client raises (connect,
   * folder, upload), `None` when it raises none; `uploadedTo` is the remote
   * path the file is written to.
   */
  method Handle(limiter: RateLimiter, httpMethod: string, forwardedFor: Option<string>, remote: Option<string>,
                uploadPassword: Option<string>, raw: RawForm, ftpDir: Option<string>, ftpError: Option<string>,
                year: nat, month: nat, day: nat, now: int)
      returns (reply: Reply, uploadedTo: Option<string>)
    modifies limiter
    ensures limiter.records == NextRecords(old(limiter.records), ClientIp(forwardedFor, remote), now)
    ensures !Allows(old(limiter.records), ClientIp(forwardedFor, remote), now) ==> reply == Reply(429, TooManyUploads)
    ensures Allows(old(limiter.records), ClientIp(forwardedFor, remote), now) && httpMethod != "POST"
            ==> reply == Reply(405, OnlyPost)
    ensures (Allows(old(limiter.records), ClientIp(forwardedFor, remote), now) && httpMethod == "POST"
             && (uploadPassword.None? || uploadPassword.value == ""))
            ==> reply == Reply(500, PasswordNotSet)
    ensures (Allows(old(limiter.records), ClientIp(forwardedFor, remote), now) && httpMethod == "POST"
             && uploadPassword.Some? && uploadPassword.value != "" && ParseForm(raw).None?)
            ==> reply == Reply(500, UploadFailed + FormIncomplete)
    ensures (Allows(old(limiter.records), ClientIp(forwardedFor, remote), now) && httpMethod == "POST"
             && uploadPassword.Some? && uploadPassword.value != "" && ParseForm(raw).Some?
             && ParseForm(raw).value.password != uploadPassword.value)
            ==> reply == Reply(401, WrongPassword)
    ensures (Allows(old(limiter.records), ClientIp(forwardedFor, remote), now) && httpMethod == "POST"
             && Authorized(uploadPassword, raw) && ftpError.Some?)
            ==> reply == Reply(500, UploadFailed + ftpError.value)
    ensures reply.status == 200 <==>
              Allows(old(limiter.records), ClientIp(forwardedFor, remote), now) && httpMethod == "POST"
              && Authorized(uploadPassword, raw) && ftpError.None?
    ensures reply.status == 200 ==>
              reply.message == UploadDone
              && uploadedTo == Some(TargetDir(ftpDir, year, month, day) + "/" + raw.file.value.originalFilename)
    ensures reply.status != 200 ==> uploadedTo.None?
  {
    uploadedTo := None;
    var ip := ClientIp(forwardedFor, remote);
    var allowed := limiter.Admit(ip, now);
    if !allowed {
      return Reply(429, TooManyUploads), None;
    }
    if httpMethod != "POST" {
      return Reply(405, OnlyPost), None;
    }
    if uploadPassword.None? || uploadPassword.value == "" {
      return Reply(500, PasswordNotSet), None;
    }
    var form := ParseForm(raw);
    if form.None? {
      return Reply(500, UploadFailed + FormIncomplete), None;
    }
    if form.value.password != uploadPassword.value {
      return Reply(401, WrongPassword), None;
    }
    if ftpError.Some? {
      return Reply(500, UploadFailed + ftpError.value), None;
    }
    uploadedTo := Some(TargetDir(ftpDir, year, month, day) + "/" + form.value.file.originalFilename);
    reply := Reply(200, UploadDone);
  }
}
