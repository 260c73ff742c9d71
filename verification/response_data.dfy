/**
 * ResponseData (core/response_data.py): the outcome of one backend call,
 * holding either a table or an error message, never both and never neither.
 * The fields are set once by the constructor, so the object is a value here.
 */
module Response {
  import opened Wrappers
  import opened Strings
  import opened Frames

  /** requests.codes.ok */
  const StatusOk: int := 200

  /** The text that starts the URL part of a requests error message. */
  const UrlMarker: string := "for url: "

  const NeitherMessage: string := "Either df or error_msg must be provided"
  const BothMessage: string := "Both df and error_msg are valid, seems logical error!"

  datatype ResponseData = ResponseData(statusCode: int, df: Option<Frame>, errorMessage: Option<string>)

  /** Python truthiness of an optional string: present and non-empty. */
  predicate Truthy(s: Option<string>) {
    s.Some? && s.value != ""
  }

  /**
   * The constructor: ValueError unless exactly one of a non-empty table and
   * a non-empty message is given; the message is kept stripped.
   */
  function MakeResponse(statusCode: int, df: Option<Frame>, errorMsg: Option<string>): (r: Result<ResponseData, PyError>)
    ensures r.Success? <==> !IsNoneOrEmpty(df) != Truthy(errorMsg)
    ensures IsNoneOrEmpty(df) && !Truthy(errorMsg) ==> r == Failure(ValueError(NeitherMessage))
    ensures !IsNoneOrEmpty(df) && Truthy(errorMsg) ==> r == Failure(ValueError(BothMessage))
    ensures r.Success? ==> r.value.statusCode == statusCode && r.value.df == df
    ensures r.Success? ==> (r.value.errorMessage.Some? <==> Truthy(errorMsg))
    ensures r.Success? && r.value.errorMessage.Some? ==>
      IsStripped(r.value.errorMessage.value) && r.value.errorMessage.value == Strip(errorMsg.value)
  {
    if IsNoneOrEmpty(df) && !Truthy(errorMsg) then Failure(ValueError(NeitherMessage))
    else if !IsNoneOrEmpty(df) && Truthy(errorMsg) then Failure(ValueError(BothMessage))
    else Success(ResponseData(statusCode, df, if Truthy(errorMsg) then Some(Strip(errorMsg.value)) else None))
  }

  /** What the constructor guarantees of every response it builds. */
  predicate WellFormed(r: ResponseData) {
    r.errorMessage.Some? ==> IsStripped(r.errorMessage.value)
  }

  /** The df property: the table when the stored message is empty or absent, otherwise ValueError carrying the message. */
  function Df(r: ResponseData): (d: Result<Option<Frame>, PyError>)
    ensures d.Success? <==> !Truthy(r.errorMessage)
    ensures d.Success? ==> d.value == r.df
    ensures d.Failure? ==> d.error == ValueError(r.errorMessage.value)
  {
    if !Truthy(r.errorMessage) then Success(r.df) else Failure(ValueError(r.errorMessage.value))
  }

  /** is_status_ok: the HTTP status is 200. */
  predicate IsStatusOk(r: ResponseData)
    ensures IsStatusOk(r) <==> r.statusCode == 200
  {
    r.statusCode == StatusOk
  }

  /** is_valid: status 200 and a table with at least one row. */
  predicate IsValid(r: ResponseData)
    ensures IsValid(r) <==> r.statusCode == 200 && r.df.Some? && |r.df.value.rows| > 0
  {
    IsStatusOk(r) && !IsNoneOrEmpty(r.df)
  }

  /**
   * error_msg_full: the stored message, uncut. It is there exactly when
   * error_msg can be read, and it is never shorter than error_msg.
   */
  function ErrorMsgFull(r: ResponseData): (m: Option<string>)
    ensures m.Some? <==> ErrorMsg(r).Success?
    ensures m.Some? ==> |ErrorMsg(r).value| <= |m.value|
  {
    r.errorMessage
  }

  /**
   * error_msg: the stored message cut before the first "for url: " and
   * stripped, or the whole message when the marker does not occur;
   * AttributeError when there is no message.
   */
  function ErrorMsg(r: ResponseData): (m: Result<string, PyError>)
    ensures m.Failure? <==> r.errorMessage.None?
    ensures m.Failure? ==> m.error == AttributeError
  {
    if r.errorMessage.None? then Failure(AttributeError)
    else
      var full := r.errorMessage.value;
      var index := Find(full, UrlMarker);
      if index != -1 then Success(Strip(full[..index])) else Success(full)
  }

  /**
   * The short message is a stripped prefix of the full one and never shows
   * the URL marker; when the marker occurs, the short message is all the text
   * before its first occurrence, less only trailing whitespace.
   */
  lemma ErrorMsgIsCleanPrefix(r: ResponseData)
    requires WellFormed(r) && r.errorMessage.Some?
    ensures ErrorMsg(r).value <= ErrorMsgFull(r).value
    ensures IsStripped(ErrorMsg(r).value)
    ensures Find(ErrorMsg(r).value, UrlMarker) == -1
    ensures var full := ErrorMsgFull(r).value; var i := Find(full, UrlMarker);
      i != -1 ==> ErrorMsg(r).value <= full[..i] && forall k :: |ErrorMsg(r).value| <= k < i ==> IsWhitespace(full[k])
  {
    var full := r.errorMessage.value;
    var index := Find(full, UrlMarker);
    if index != -1 {
      var short := Strip(full[..index]);
      StripOfStrippedPrefix(full, index);
      assert |short| <= index;
      NoOccurrenceInPrefix(full, short, UrlMarker, index);
    } else {
      NoOccurrenceInPrefix(full, full, UrlMarker, |full| + 1);
    }
  }

  /** Without the marker, the short message is the full one. */
  lemma ErrorMsgWithoutUrl(r: ResponseData)
    requires r.errorMessage.Some? && Find(r.errorMessage.value, UrlMarker) == -1
    ensures ErrorMsg(r) == Success(ErrorMsgFull(r).value)
  {
  }

  /** Every built response is well formed, and a valid one yields its table without error. */
  lemma BuiltResponses(statusCode: int, df: Option<Frame>, errorMsg: Option<string>)
    requires MakeResponse(statusCode, df, errorMsg).Success?
    ensures var r := MakeResponse(statusCode, df, errorMsg).value;
      && WellFormed(r)
      && (IsValid(r) ==> Df(r) == Success(df) && df.Some?)
      && (Truthy(errorMsg) && Strip(errorMsg.value) != "" ==> Df(r).Failure?)
  {
  }

  /**
   * A message of whitespace only passes the constructor's check, since the
   * check looks at the message before stripping, and is then stored empty:
   * the response holds neither a table nor an error, and df returns nothing.
   */
  lemma WhitespaceMessageGivesNeither(statusCode: int, msg: string)
    requires msg != [] && forall i :: 0 <= i < |msg| ==> IsWhitespace(msg[i])
    ensures var r := MakeResponse(statusCode, None, Some(msg));
      && r.Success?
      && IsNoneOrEmpty(r.value.df) && r.value.errorMessage == Some("")
      && !Truthy(r.value.errorMessage)
      && Df(r.value) == Success(None)
  {
    StripOfWhitespace(msg);
  }

  /** The constructor with its check made on the stripped message. */
  function MakeResponseChecked(statusCode: int, df: Option<Frame>, errorMsg: Option<string>): (r: Result<ResponseData, PyError>)
    ensures var msg := if errorMsg.Some? then Some(Strip(errorMsg.value)) else None;
      r.Success? <==> !IsNoneOrEmpty(df) != Truthy(msg)
    ensures r.Success? ==> r.value.statusCode == statusCode && r.value.df == df
  {
    var msg := if errorMsg.Some? then Some(Strip(errorMsg.value)) else None;
    if IsNoneOrEmpty(df) && !Truthy(msg) then Failure(ValueError(NeitherMessage))
    else if !IsNoneOrEmpty(df) && Truthy(msg) then Failure(ValueError(BothMessage))
    else Success(ResponseData(statusCode, df, if Truthy(msg) then msg else None))
  }

  /** Every response the checked constructor builds holds exactly one of a table and an error, and df raises exactly when it holds the error. */
  lemma CheckedResponsesHoldExactlyOne(statusCode: int, df: Option<Frame>, errorMsg: Option<string>)
    requires MakeResponseChecked(statusCode, df, errorMsg).Success?
    ensures var r := MakeResponseChecked(statusCode, df, errorMsg).value;
      && WellFormed(r)
      && (!IsNoneOrEmpty(r.df) <==> r.errorMessage.None?)
      && (r.errorMessage.Some? ==> r.errorMessage.value != "")
      && (Df(r).Failure? <==> r.errorMessage.Some?)
  {
  }
}
