/** The HTTP replies of the API views and the uniform
    `{status, message, data, options}` envelope of `CustomErrorResponse`
    and `CustomSuccessResponse` (utils/utils.py). */
module Responses {
  import opened Wrappers
  import opened Json

  /** What a view hands back to the framework: a reply with a status code
      and a body, or an exception nobody caught, which Django turns into a
      500 page. */
  datatype Reply<+B> = Reply(code: int, body: B) | Unhandled(exception: string) {

    function StatusCode(): int {
      match this
      case Reply(c, _) => c
      case Unhandled(_) => 500
    }
  }

  /** A view's reply together with the table it leaves behind. */
  datatype Served<+B, +S> = Served(reply: Reply<B>, state: S)

  /** The four keys of every enveloped body. */
  datatype Envelope = Envelope(status: string, message: Json, data: Json, options: Json)

  predicate InErrorBand(code: int) {
    400 <= code <= 599
  }

  predicate InSuccessBand(code: int) {
    200 <= code <= 399
  }

  /** The status an error envelope is sent with: the requested code when it
      is a 4xx/5xx code, and 500 for `None` or any other code. */
  function ClampError(code: Option<int>): (r: int)
    ensures InErrorBand(r)
    ensures code.Some? && InErrorBand(code.value) ==> r == code.value
    ensures code.None? || !InErrorBand(code.value) ==> r == 500
  {
    if code.None? || !InErrorBand(code.value) then 500 else code.value
  }

  /** The status a success envelope is sent with: the requested code when
      it is a 2xx/3xx code, and 202 for `None` or any other code. */
  function ClampSuccess(code: Option<int>): (r: int)
    ensures InSuccessBand(r)
    ensures code.Some? && InSuccessBand(code.value) ==> r == code.value
    ensures code.None? || !InSuccessBand(code.value) ==> r == 202
  {
    if code.None? || !InSuccessBand(code.value) then 202 else code.value
  }

  /** Clamping an already clamped error code changes nothing. */
  lemma ClampErrorIdempotent(code: Option<int>)
    ensures ClampError(Some(ClampError(code))) == ClampError(code)
  {
  }

  /** Clamping an already clamped success code changes nothing. */
  lemma ClampSuccessIdempotent(code: Option<int>)
    ensures ClampSuccess(Some(ClampSuccess(code))) == ClampSuccess(code)
  {
  }

  const ErrorDefaultStatus := "NOK"
  const ErrorDefaultMessage := "Operation failed."
  const ErrorDefaultCode := 666
  const SuccessDefaultStatus := "OK"
  const SuccessDefaultMessage := "Operation Successfully Done."

  /** `CustomErrorResponse(status_ch, status_code, msj, error_code)`, with
      the keyword defaults of the Python constructor. */
  function ErrorResponse(
    statusCh: string := ErrorDefaultStatus,
    statusCode: Option<int> := None,
    msj: Json := JStr(ErrorDefaultMessage),
    errorCode: Json := JNum(ErrorDefaultCode)
  ): (r: Reply<Envelope>)
    ensures r.Reply? && InErrorBand(r.code)
    ensures r.code == ClampError(statusCode)
    ensures r.body.status == statusCh && r.body.message == msj
    ensures r.body.data == JObj(map["isAvailable" := JBool(false), "error_code" := errorCode])
    ensures r.body.options == EmptyObject
  {
    Reply(ClampError(statusCode),
          Envelope(statusCh, msj, JObj(map["isAvailable" := JBool(false), "error_code" := errorCode]), EmptyObject))
  }

  /** `CustomSuccessResponse(status_msj, status_code, msj, input_data,
      input_options)`, with the keyword defaults of the Python constructor:
      a `None` payload or options becomes `{}`, anything else is kept. */
  function SuccessResponse(
    statusMsj: string := SuccessDefaultStatus,
    statusCode: Option<int> := None,
    msj: Json := JStr(SuccessDefaultMessage),
    inputData: Json := JNull,
    inputOptions: Json := JNull
  ): (r: Reply<Envelope>)
    ensures r.Reply? && InSuccessBand(r.code)
    ensures r.code == ClampSuccess(statusCode)
    ensures r.body.status == statusMsj && r.body.message == msj
    ensures inputData == JNull ==> r.body.data == EmptyObject
    ensures inputData != JNull ==> r.body.data == inputData
    ensures inputOptions == JNull ==> r.body.options == EmptyObject
    ensures inputOptions != JNull ==> r.body.options == inputOptions
  {
    var data := if inputData == JNull then EmptyObject else inputData;
    var options := if inputOptions == JNull then EmptyObject else inputOptions;
    Reply(ClampSuccess(statusCode), Envelope(statusMsj, msj, data, options))
  }

  /** With no arguments, the error envelope is a 500 `NOK` "Operation
      failed." carrying error code 666. */
  lemma ErrorDefaults()
    ensures ErrorResponse() == Reply(500, Envelope("NOK", JStr("Operation failed."),
                                                   JObj(map["isAvailable" := JBool(false), "error_code" := JNum(666)]),
                                                   JObj(map[])))
  {
  }

  /** With no arguments, the success envelope is a 202 `OK` "Operation
      Successfully Done." with empty data and options. */
  lemma SuccessDefaults()
    ensures SuccessResponse() == Reply(202, Envelope("OK", JStr("Operation Successfully Done."), JObj(map[]), JObj(map[])))
  {
  }

  /** The JSON object the framework renders for an envelope. */
  function Render(e: Envelope): (j: Json)
    ensures j.JObj? && j.fields.Keys == {"status", "message", "data", "options"}
  {
    JObj(map["status" := JStr(e.status), "message" := e.message, "data" := e.data, "options" := e.options])
  }

  /** Reads an envelope back from a rendered body; `None` for anything that
      is not an object with exactly the four envelope keys. */
  function Read(j: Json): (r: Option<Envelope>)
    ensures r.Some? ==> j.JObj? && j.fields.Keys == {"status", "message", "data", "options"}
  {
    if j.JObj? && j.fields.Keys == {"status", "message", "data", "options"} && j.fields["status"].JStr? then
      Some(Envelope(j.fields["status"].s, j.fields["message"], j.fields["data"], j.fields["options"]))
    else
      None
  }

  /** Every rendered envelope reads back as itself. */
  lemma ReadRender(e: Envelope)
    ensures Read(Render(e)) == Some(e)
  {
  }
}
