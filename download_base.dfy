/** `Network.DownloadTaskBase`: the status-line check shared by every download
    task, and the two fields it maintains, `httpCode` and `errorMessage`. */
module DownloadBase {
  import opened Strings
  import opened Io

  /** What `getResponseCode()` gives: a status code, or an IOException. */
  datatype StatusRead = Code(code: int) | Fails(error: IoError)

  /** `processStatusLine`'s answer together with the two fields it leaves behind. */
  datatype Verdict = Verdict(proceed: bool, httpCode: int, errorMessage: Option<string>)

  const AccessDenied := "Access Denied"
  const HttpErrorPrefix := "HTTP Error "
  const UnspecifiedError := "Unspecified error"

  /** The message a rejected status code leaves in `errorMessage`: "Access
      Denied" exactly for 403, otherwise "HTTP Error " followed by the code's
      canonical decimal numeral, which reads back as the code. */
  function StatusMessage(code: int): (m: string)
    ensures |m| > 0 && m[0] == if code == 403 then 'A' else 'H'
    ensures m == AccessDenied <==> code == 403
    ensures code != 403 ==>
      && |m| > |HttpErrorPrefix| && m[..|HttpErrorPrefix|] == HttpErrorPrefix
      && ParseInt(m[|HttpErrorPrefix|..]) == Some(code)
      && Canonical(m[|HttpErrorPrefix|..])
  {
    if code == 403 then AccessDenied
    else
      IntToStringRoundTrip(code);
      var m := HttpErrorPrefix + IntToString(code);
      assert m[|HttpErrorPrefix|..] == IntToString(code);
      m
  }

  /** `processStatusLine`, given what reading the status code gives and the
      `errorMessage` field before the call. A transport failure first stores its
      own message and the code 500; the rejection of 500 then overwrites that message. */
  function StatusLine(read: StatusRead, errorMessage: Option<string>): (v: Verdict)
    ensures v.proceed <==> read.Code? && (read.code == 200 || read.code == 206)
    ensures v.httpCode == if read.Code? then read.code else 500
    ensures v.proceed ==> v.errorMessage == errorMessage
    ensures !v.proceed ==> v.errorMessage == Some(StatusMessage(v.httpCode)) && !IsEmpty(v.errorMessage)
    ensures read.Code? && read.code == 403 ==> v.errorMessage == Some("Access Denied")
    ensures read.Fails? ==> v.errorMessage == Some("HTTP Error 500")
  {
    var (code, message) := match read
      case Code(c) => (c, errorMessage)
      case Fails(e) => (500, e.message);
    if code != 200 && code != 206 then
      assert NatToString(5) == "5" && NatToString(50) == "50" && IntToString(500) == "500";
      assert StatusMessage(500) == "HTTP Error 500";
      Verdict(false, code, Some(StatusMessage(code)))
    else
      Verdict(true, code, message)
  }

  /** Different rejected codes leave different messages, so the message
      identifies the code. */
  lemma StatusMessageInjective(a: int, b: int)
    ensures StatusMessage(a) == StatusMessage(b) ==> a == b
  {
  }

  /** Checking the same status line twice gives the same verdict as checking it once. */
  lemma StatusLineIdempotent(read: StatusRead, errorMessage: Option<string>)
    ensures StatusLine(read, StatusLine(read, errorMessage).errorMessage) == StatusLine(read, errorMessage)
  {
  }

  /** The message `onPostExecute` reports for a null result: the stored
      message, or "Unspecified error" when that is null or empty. */
  function ErrorText(errorMessage: Option<string>): (m: string)
    ensures m != ""
    ensures !IsEmpty(errorMessage) ==> m == errorMessage.value
    ensures IsEmpty(errorMessage) ==> m == "Unspecified error"
  {
    if IsEmpty(errorMessage) then UnspecifiedError else errorMessage.value
  }

  class DownloadTaskBase {
    var errorMessage: Option<string>
    var httpCode: int

    /** A fresh task: Java's default field values. */
    constructor ()
      ensures errorMessage == None && httpCode == 0
    {
      errorMessage := None;
      httpCode := 0;
    }

    method ProcessStatusLine(read: StatusRead) returns (proceed: bool)
      modifies this
      ensures Verdict(proceed, httpCode, errorMessage) == StatusLine(read, old(errorMessage))
    {
      match read {
        case Code(c) =>
          httpCode := c;
        case Fails(e) =>
          errorMessage := e.message;
          httpCode := 500;
      }
      if httpCode != 200 && httpCode != 206 {
        if httpCode == 403 {
          errorMessage := Some(AccessDenied);
        } else {
          errorMessage := Some(HttpErrorPrefix + IntToString(httpCode));
        }
        return false;
      }
      return true;
    }

    /** The null-result branch of `onPostExecute`, common to the text and binary
        tasks: substitute the fallback for an empty message, then report it. */
    method ReportError() returns (message: string)
      modifies this`errorMessage
      ensures message == ErrorText(old(errorMessage))
      ensures errorMessage == Some(message)
    {
      if IsEmpty(errorMessage) {
        errorMessage := Some(UnspecifiedError);
      }
      message := errorMessage.value;
    }
  }
}
