/** `Network.DownloadTextTask`: download a small text body, remember its ETag,
    and deliver either the text or an error message. */
module DownloadText {
  import opened Strings
  import opened Io
  import opened DownloadBase

  /** What `Utils.getHttpResponseText` gives: the text (possibly null) or an IOException. */
  datatype TextBody = Text(text: Option<string>) | ReadFails(error: IoError)

  /** The connection as the text task sees it: either `getHttpRequest` throws,
      or there is a status line, an optional ETag header and a body. */
  datatype TextConnection =
    | RequestFails(error: IoError)
    | Opened(status: StatusRead, etag: Option<string>, body: TextBody)

  /** The value `doInBackground` returns together with the fields it leaves behind. */
  datatype TextRun = TextRun(result: Option<string>, httpCode: int, errorMessage: Option<string>, etag: string)

  /** The one callback `onPostExecute` invokes. */
  datatype TextCallback = OnError(message: string) | OnDownloadComplete(text: string)

  const NoNetwork := "No network"
  const DuringDownloadPrefix := "Error during download: "

  /** The message stored by the two catch clauses of `doInBackground`: "No
      network" exactly for an unknown host, otherwise the prefix followed by the
      exception's message (or "null"). */
  function CaughtMessage(e: IoError): (m: string)
    ensures m == NoNetwork <==> e.unknownHost
    ensures !e.unknownHost ==>
      && |m| >= |DuringDownloadPrefix| && m[..|DuringDownloadPrefix|] == DuringDownloadPrefix
      && m[|DuringDownloadPrefix|..] == if e.message.Some? then e.message.value else "null"
  {
    assert NoNetwork[0] != DuringDownloadPrefix[0];
    if e.unknownHost then NoNetwork else Concat(DuringDownloadPrefix, e.message)
  }

  /** `doInBackground` on the fields `httpCode`, `errorMessage` and `responseETag`
      it starts from. The ETag is stored before the body is read, so it survives a
      failing read. */
  function RunText(conn: TextConnection, httpCode: int, errorMessage: Option<string>, etag: string): (r: TextRun)
    ensures r.httpCode == if conn.Opened? then StatusLine(conn.status, errorMessage).httpCode else httpCode
    ensures conn.RequestFails? ==> r.errorMessage == Some(CaughtMessage(conn.error))
    ensures conn.Opened? && conn.body.ReadFails? && StatusLine(conn.status, errorMessage).proceed ==>
      r.errorMessage == Some(CaughtMessage(conn.body.error))
    ensures conn.Opened? && !(conn.body.ReadFails? && StatusLine(conn.status, errorMessage).proceed) ==>
      r.errorMessage == StatusLine(conn.status, errorMessage).errorMessage
    ensures r.result.Some? ==> conn.Opened? && conn.body == Text(r.result)
  {
    match conn
    case RequestFails(e) => TextRun(None, httpCode, Some(CaughtMessage(e)), etag)
    case Opened(status, header, body) =>
      var v := StatusLine(status, errorMessage);
      if !v.proceed then TextRun(None, v.httpCode, v.errorMessage, etag)
      else
        var tag := if header.Some? then header.value else "";
        match body
        case Text(t) => TextRun(t, v.httpCode, v.errorMessage, tag)
        case ReadFails(e) => TextRun(None, v.httpCode, Some(CaughtMessage(e)), tag)
  }

  /** The fields `doInBackground` leaves: the ETag header, or "" when it is
      missing, is stored only once the status line has passed; a null result
      always comes with a stored message except when the body text itself is null. */
  lemma TextRunFields(conn: TextConnection, httpCode: int, errorMessage: Option<string>, etag: string)
    ensures var run := RunText(conn, httpCode, errorMessage, etag);
      var passed := conn.Opened? && StatusLine(conn.status, errorMessage).proceed;
      && (passed ==> run.etag == if conn.etag.Some? then conn.etag.value else "")
      && (!passed ==> run.etag == etag)
      && (run.result.None? && !(passed && conn.body.Text?) ==> !IsEmpty(run.errorMessage))
      && (run.result.Some? <==> passed && conn.body.Text? && conn.body.text.Some?)
  {
    var run := RunText(conn, httpCode, errorMessage, etag);
    if conn.RequestFails? && !conn.error.unknownHost {
      assert |Concat(DuringDownloadPrefix, conn.error.message)| >= |DuringDownloadPrefix|;
    }
  }

  /** `onPostExecute`: a null result reports the stored message (or the fallback),
      any other result is handed to `onDownloadComplete`. */
  function PostText(result: Option<string>, errorMessage: Option<string>): (cb: TextCallback)
    ensures cb.OnError? <==> result.None?
    ensures cb.OnError? ==> cb.message == ErrorText(errorMessage) && cb.message != ""
    ensures result.Some? ==> cb == OnDownloadComplete(result.value)
  {
    if result.None? then OnError(ErrorText(errorMessage)) else OnDownloadComplete(result.value)
  }

  /** The whole life of a fresh text task: exactly one callback, chosen by the
      connection as follows. */
  function TextOutcome(conn: TextConnection): (cb: TextCallback)
    ensures conn.RequestFails? ==> cb == OnError(CaughtMessage(conn.error))
    ensures conn.Opened? && !StatusLine(conn.status, None).proceed ==>
      cb == OnError(StatusMessage(StatusLine(conn.status, None).httpCode))
    ensures conn.Opened? && StatusLine(conn.status, None).proceed ==>
      cb == match conn.body
        case ReadFails(e) => OnError(CaughtMessage(e))
        case Text(t) => if t.Some? then OnDownloadComplete(t.value) else OnError("Unspecified error")
    ensures cb.OnDownloadComplete? <==>
      conn.Opened? && conn.status.Code? && conn.status.code in {200, 206} && conn.body.Text? && conn.body.text.Some?
    ensures cb.OnError? ==> cb.message != ""
    ensures cb == OnError("No network") <==>
      (conn.RequestFails? && conn.error.unknownHost) ||
      (conn.Opened? && StatusLine(conn.status, None).proceed && conn.body.ReadFails? && conn.body.error.unknownHost)
    ensures cb == OnError("Unspecified error") <==>
      conn.Opened? && StatusLine(conn.status, None).proceed && conn.body == Text(None)
  {
    var run := RunText(conn, 0, None, "");
    MessagesDiffer();
    PostText(run.result, run.errorMessage)
  }

  /** The messages of the different failure causes never coincide. */
  lemma MessagesDiffer()
    ensures forall e: IoError :: CaughtMessage(e) != UnspecifiedError
    ensures forall e: IoError :: !e.unknownHost ==> CaughtMessage(e) != NoNetwork
    ensures forall code :: StatusMessage(code) != UnspecifiedError && StatusMessage(code) != NoNetwork
  {
    forall e: IoError ensures CaughtMessage(e) != UnspecifiedError && (!e.unknownHost ==> CaughtMessage(e) != NoNetwork) {
      if !e.unknownHost {
        assert CaughtMessage(e)[0] == 'E';
      }
    }
    forall code ensures StatusMessage(code) != UnspecifiedError && StatusMessage(code) != NoNetwork {
      assert StatusMessage(code)[0] == if code == 403 then 'A' else 'H';
    }
  }

  class DownloadTextTask {
    const base: DownloadTaskBase
    var responseETag: string

    constructor ()
      ensures fresh(base) && base.httpCode == 0 && base.errorMessage == None && responseETag == ""
    {
      base := new DownloadTaskBase();
      responseETag := "";
    }

    method DoInBackground(conn: TextConnection) returns (result: Option<string>)
      modifies this, base
      ensures TextRun(result, base.httpCode, base.errorMessage, responseETag)
        == RunText(conn, old(base.httpCode), old(base.errorMessage), old(responseETag))
    {
      if conn.RequestFails? {
        base.errorMessage := Some(CaughtMessage(conn.error));
        return None;
      }
      var proceed := base.ProcessStatusLine(conn.status);
      if !proceed {
        return None;
      }
      responseETag := if conn.etag.Some? then conn.etag.value else "";
      match conn.body {
        case Text(t) =>
          return t;
        case ReadFails(e) =>
          if e.unknownHost {
            base.errorMessage := Some(NoNetwork);
          } else {
            base.errorMessage := Some(Concat(DuringDownloadPrefix, e.message));
          }
          return None;
      }
    }

    method OnPostExecute(result: Option<string>) returns (cb: TextCallback)
      modifies base`errorMessage
      ensures cb == PostText(result, old(base.errorMessage))
      ensures base.errorMessage == if result.None? then Some(cb.message) else old(base.errorMessage)
    {
      if result.None? {
        var message := base.ReportError();
        return OnError(message);
      }
      return OnDownloadComplete(result.value);
    }
  }
}
