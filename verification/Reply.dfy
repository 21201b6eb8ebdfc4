/** The reply to a task: how the answering side builds it (`send_reply`) and how the asking side unpacks it
    (the second half of `handle_via_tasks`). */
module Reply {
  import opened Wrappers
  import opened Http
  import Decimal

  datatype HttpResponse = HttpResponse(status: nat, headers: HeaderMap, body: Bytes)

  datatype WorkStatus = Claimed | Succeeded | PermFailed | TempFailed

  /** A result posted for a task.  `body` is None for a body that is not an HTTP response, such as the empty
      body of a claim. */
  datatype TaskResult = TaskResult(status: WorkStatus, body: Option<HttpResponse>)

  /** What executing the task gave: the head of the target's response, or an error that comes before any
      response (no local target, not authorised, invalid URI, or target unreachable). */
  datatype Executed = Reached(status: nat, headers: HeaderMap) | NotReached

  /** The text sent when the execution failed. */
  function ErrorBody(): Bytes {
    seq(48, i requires 0 <= i < 48 => ErrorByte(i))
  }

  function ErrorByte(i: nat): Byte
    requires i < 48
  {
    ("Error executing http task. See beam connect logs"[i] as int % 256) as Byte
  }

  /** The result to post, or None when the target's body cannot be read and nothing is posted. */
  function Message(out: Executed, body: Option<Bytes>): Option<TaskResult> {
    match out
    case NotReached =>
      Some(TaskResult(PermFailed, Some(HttpResponse(INTERNAL_SERVER_ERROR, map[], ErrorBody()))))
    case Reached(status, headers) =>
      match body
      case None => None
      case Some(bytes) => Some(TaskResult(Succeeded, Some(HttpResponse(status, headers, bytes))))
  }

  /** The response has no Content-Length, or one that is the length of its body. */
  predicate LengthAgrees(r: HttpResponse) {
    match Get(r.headers, CONTENT_LENGTH)
    case None => true
    case Some(value) => IsText(value) && Decimal.Parsed(value) == Some(|r.body|)
  }

  /** The response has no Content-Length, or one that is the length of its body in decimal. */
  ghost predicate SaysItsLength(r: HttpResponse) {
    "content-length" !in r.headers || r.headers["content-length"] == [] ||
    exists plus: string, zeros: string ::
      |r.body| < 0x1_0000_0000_0000_0000 &&
      Decimal.IsWritten(r.headers["content-length"][0], |r.body|, plus, zeros)
  }

  lemma LengthAgreesExactly(r: HttpResponse)
    ensures LengthAgrees(r) <==> SaysItsLength(r)
  {
    if Get(r.headers, CONTENT_LENGTH).Some? {
      var value := r.headers["content-length"][0];
      Decimal.ParsedExactly(value, |r.body|);
      if plus: string, zeros: string :| Decimal.IsWritten(value, |r.body|, plus, zeros) {
        assert IsText(value) by {
          assert forall i :: 0 <= i < |value| ==> value[i] == '+' || Decimal.IsDigit(value[i]);
        }
      }
    }
  }

  /** Unpacks the fetched results: the last one counts, it must have succeeded, and its length must agree. */
  method Unpack(results: seq<TaskResult>) returns (r: Result<HttpResponse, nat>)
    ensures r.Success? <==>
            results != [] && var last := results[|results| - 1];
            last.status == Succeeded && last.body.Some? && LengthAgrees(last.body.value)
    ensures r.Success? ==> Some(r.value) == results[|results| - 1].body
    ensures r == Unpacked(results)
  {
    var taskResults := results;
    if taskResults == [] {
      return Failure(INTERNAL_SERVER_ERROR);
    }
    var result := taskResults[|taskResults| - 1];
    taskResults := taskResults[..|taskResults| - 1];
    if result.status != Succeeded {
      return Failure(BAD_GATEWAY);
    }
    if result.body == None {
      return Failure(BAD_GATEWAY);
    }
    var inner := result.body.value;
    var header := Get(inner.headers, CONTENT_LENGTH);
    if header.Some? {
      if !IsText(header.value) {
        return Failure(BAD_REQUEST);
      }
      var expected := Decimal.ParseU64(header.value);
      if expected == None {
        return Failure(INTERNAL_SERVER_ERROR);
      }
      if expected.value != |inner.body| {
        return Failure(INTERNAL_SERVER_ERROR);
      }
    }
    return Success(inner);
  }

  /** The status or response `Unpack` answers with. */
  function Unpacked(results: seq<TaskResult>): Result<HttpResponse, nat> {
    if results == [] then Failure(INTERNAL_SERVER_ERROR)
    else
      var last := results[|results| - 1];
      if last.status != Succeeded || last.body == None then Failure(BAD_GATEWAY)
      else if LengthAgrees(last.body.value) then Success(last.body.value)
      else if !IsText(Get(last.body.value.headers, CONTENT_LENGTH).value) then Failure(BAD_REQUEST)
      else Failure(INTERNAL_SERVER_ERROR)
  }

  /** Reply transparency: whatever was posted before it, a posted message reaches the asking client as exactly
      the target's status, headers and body if the target was reached and its Content-Length is absent or
      right; the client gets 502 for every execution error, and 400 or 500 for a disagreeing length. */
  lemma Transparent(out: Executed, body: Option<Bytes>, earlier: seq<TaskResult>)
    requires Message(out, body).Some?
    ensures var got := Unpacked(earlier + [Message(out, body).value]);
            match out
            case NotReached => got == Failure(502)
            case Reached(status, headers) =>
              var sent := HttpResponse(status, headers, body.value);
              && (got == Success(sent) <==> SaysItsLength(sent))
              && (!SaysItsLength(sent) ==> got in {Failure(400), Failure(500)})
  {
    var results := earlier + [Message(out, body).value];
    assert results[|results| - 1] == Message(out, body).value;
    if out.Reached? {
      LengthAgreesExactly(HttpResponse(out.status, out.headers, body.value));
    }
  }

  /** What is posted: the target's response as it is, whatever its status, once its body has been read; or for an
      execution that failed a 500 with a fixed text, as a permanent failure. */
  lemma MessageExactly(out: Executed, body: Option<Bytes>)
    ensures match (out, body)
            case (Reached(status, headers), None) => Message(out, body) == None
            case (Reached(status, headers), Some(bytes)) =>
              Message(out, body) == Some(TaskResult(Succeeded, Some(HttpResponse(status, headers, bytes))))
            case (NotReached, _) =>
              exists text: Bytes :: IsErrorText(text) &&
                Message(out, body) == Some(TaskResult(PermFailed, Some(HttpResponse(500, map[], text))))
  {
    assert IsErrorText(ErrorBody());
  }

  predicate IsErrorText(bytes: Bytes) {
    var text := "Error executing http task. See beam connect logs";
    |bytes| == |text| && forall i :: 0 <= i < |text| ==> bytes[i] as int == text[i] as int % 256
  }

  /** The client gets 500 without a result, 502 if the last did not succeed or cannot be decoded, and otherwise the
      response; or 400 for a length that is no text, and 500 for one that is wrong. */
  lemma UnpackedExactly(results: seq<TaskResult>)
    ensures results == [] ==> Unpacked(results) == Failure(500)
    ensures results != [] ==>
              match results[|results| - 1]
              case TaskResult(Succeeded, Some(r)) =>
                if SaysItsLength(r) then Unpacked(results) == Success(r)
                else Unpacked(results) == Failure(
                       if exists i :: 0 <= i < |r.headers["content-length"][0]| &&
                            !(' ' <= r.headers["content-length"][0][i] <= '~') &&
                            r.headers["content-length"][0][i] != '\t'
                       then 400 else 500)
              case _ => Unpacked(results) == Failure(502)
  {
    if results != [] && results[|results| - 1].body.Some? {
      LengthAgreesExactly(results[|results| - 1].body.value);
    }
  }

  /** The reply to a HEAD request carries the length of a body it does not have, and is refused. */
  lemma HeadReplyIsRefused(n: nat)
    requires 0 < n <= Decimal.U64_MAX
    ensures var head := Reached(200, map[CONTENT_LENGTH := [Decimal.Print(n)]]);
            Unpacked([Message(head, Some([])).value]) == Failure(INTERNAL_SERVER_ERROR)
  {
    Decimal.PrintParses(n);
    assert IsText(Decimal.Print(n)) by {
      assert Decimal.AllDigits(Decimal.Print(n));
    }
  }
}
