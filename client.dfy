/** The client's own state and the part of a request that runs after the
    reply arrives: the server clock offset kept from the `Date` header, and
    the status-code check. Opening connections, sending the payload and
    reading the body are not part of this model: a reply is given as a
    value, and the device clock and the header date parser are parameters. */
module Client {
  import opened Wrappers
  import opened Errors
  import opened WireDate

  /** What a finished HTTP exchange yields to the client. */
  datatype Reply = Reply(code: int, message: Option<string>, dateHeader: Option<string>, body: string)

  /** The status check: a code outside [200, 300) fails the request with the
      server's response message. */
  function CheckStatus(code: int, message: Option<string>): (r: Result<(), Error>)
    ensures r.Ok? <==> 200 <= code < 300
    ensures r.Err? ==> r.error == RequestCodeFailure(message)
  {
    if code < 200 || code >= 300 then Err(RequestCodeFailure(message)) else Ok(())
  }

  /** The server time a `Date` header gives, as intended: none when the
      header is missing or does not parse. */
  function ServerTime(header: Option<string>, parseHttpDate: string -> Option<Instant>): (r: Option<Instant>)
    ensures r.Some? <==> header.Some? && parseHttpDate(header.value).Some?
    ensures r.Some? ==> r == parseHttpDate(header.value)
  {
    match header
    case Some(h) => parseHttpDate(h)
    case None => None
  }

  /** The same step as written: the header text goes to the parser even
      when it is null. SimpleDateFormat.parse(null) throws
      NullPointerException, which the `catch (ParseException e)` around it
      does not catch, so the exchange fails. */
  function ServerTimeAsWritten(header: Option<string>, parseHttpDate: string -> Option<Instant>): (r: Result<Option<Instant>, Error>)
    ensures r.Err? <==> header.None?
    ensures r.Err? ==> r.error == NullPointer
    ensures r.Ok? ==> r.value == ServerTime(header, parseHttpDate)
  {
    match header
    case Some(h) => Ok(parseHttpDate(h))
    case None => Err(NullPointer)
  }

  /** The offset after one reply: server time minus device time minus the
      100 ms allowance when the header parses, the old offset otherwise. */
  function NextOffset(previous: int, header: Option<string>, parseHttpDate: string -> Option<Instant>, deviceNow: Instant): (o: int)
    ensures ServerTime(header, parseHttpDate).Some? ==> o == ServerTime(header, parseHttpDate).value - deviceNow - 100
    ensures ServerTime(header, parseHttpDate).None? ==> o == previous
  {
    match ServerTime(header, parseHttpDate)
    case Some(server) => server - deviceNow - 100
    case None => previous
  }

  /** What the request callback receives for a reply, as intended. */
  function Outcome(reply: Reply): (r: Result<string, Error>)
    ensures r.Ok? <==> 200 <= reply.code < 300
    ensures r.Ok? ==> r.value == reply.body
    ensures r.Err? ==> r.error == RequestCodeFailure(reply.message)
  {
    match CheckStatus(reply.code, reply.message)
    case Ok(_) => Ok(reply.body)
    case Err(e) => Err(e)
  }

  /** The same, as written: a reply without a `Date` header fails before its
      status code is looked at. */
  function OutcomeAsWritten(reply: Reply): (r: Result<string, Error>)
    ensures reply.dateHeader.None? ==> r == Err(NullPointer)
    ensures reply.dateHeader.Some? ==> r == Outcome(reply)
  {
    if reply.dateHeader.None? then Err(NullPointer) else Outcome(reply)
  }

  /** The discrepancy: a successful reply without a `Date` header reaches
      the caller as an error, where keeping the old offset was meant. */
  lemma MissingDateHeaderFailsSuccessfulReply(body: string, parseHttpDate: string -> Option<Instant>)
    ensures OutcomeAsWritten(Reply(200, None, None, body)) == Err(NullPointer)
    ensures ServerTimeAsWritten(None, parseHttpDate) == Err(NullPointer)
    ensures Outcome(Reply(200, None, None, body)) == Ok(body)
    ensures NextOffset(-1000, None, parseHttpDate, 0) == -1000
  {
  }

  class BabyBuddyClient {
    /** Milliseconds to add to the device clock to get server time. */
    var serverDateOffset: int

    /** A fresh client assumes the server is one second behind. */
    constructor ()
      ensures serverDateOffset == -1000
    {
      serverDateOffset := -1000;
    }

    /** `getServerDateOffsetMillis()`. */
    function ServerDateOffsetMillis(): (r: int)
      reads this
      ensures r == serverDateOffset
    {
      serverDateOffset
    }

    /** The instant `now()` formats: the device clock moved by the offset. */
    function ServerNow(deviceNow: Instant): (r: Instant)
      reads this
      ensures r - deviceNow == ServerDateOffsetMillis()
    {
      deviceNow + serverDateOffset
    }

    /** `updateServerDateTime`, as intended: a missing or unparsable header
        leaves the offset alone. */
    method UpdateServerDateTime(header: Option<string>, parseHttpDate: string -> Option<Instant>, deviceNow: Instant)
      modifies this
      ensures serverDateOffset == NextOffset(old(serverDateOffset), header, parseHttpDate, deviceNow)
    {
      var serverTime := ServerTime(header, parseHttpDate);
      if serverTime.Some? {
        serverDateOffset := serverTime.value - deviceNow - 100;
      }
    }

    /** `updateServerDateTime` as written: a missing header throws out of it. */
    method UpdateServerDateTimeAsWritten(header: Option<string>, parseHttpDate: string -> Option<Instant>, deviceNow: Instant)
      returns (r: Result<(), Error>)
      modifies this
      ensures r.Err? <==> header.None?
      ensures r.Err? ==> r.error == NullPointer
      ensures serverDateOffset == NextOffset(old(serverDateOffset), header, parseHttpDate, deviceNow)
    {
      var serverTime :- ServerTimeAsWritten(header, parseHttpDate);
      if serverTime.Some? {
        serverDateOffset := serverTime.value - deviceNow - 100;
      }
      r := Ok(());
    }

    /** The part of dispatchQuery after `connect()`: the clock offset is
        updated from every reply, whatever its status, then the status is
        checked and the body handed on. */
    method Exchange(reply: Reply, parseHttpDate: string -> Option<Instant>, deviceNow: Instant)
      returns (r: Result<string, Error>)
      modifies this
      ensures r == Outcome(reply)
      ensures serverDateOffset == NextOffset(old(serverDateOffset), reply.dateHeader, parseHttpDate, deviceNow)
    {
      UpdateServerDateTime(reply.dateHeader, parseHttpDate, deviceNow);
      var status := CheckStatus(reply.code, reply.message);
      if status.Err? {
        return Err(status.error);
      }
      r := Ok(reply.body);
    }

    /** The same exchange as written. */
    method ExchangeAsWritten(reply: Reply, parseHttpDate: string -> Option<Instant>, deviceNow: Instant)
      returns (r: Result<string, Error>)
      modifies this
      ensures r == OutcomeAsWritten(reply)
      ensures serverDateOffset == NextOffset(old(serverDateOffset), reply.dateHeader, parseHttpDate, deviceNow)
    {
      var updated := UpdateServerDateTimeAsWritten(reply.dateHeader, parseHttpDate, deviceNow);
      if updated.Err? {
        return Err(updated.error);
      }
      var status := CheckStatus(reply.code, reply.message);
      if status.Err? {
        return Err(status.error);
      }
      r := Ok(reply.body);
    }
  }

  /** Right after a reply with a readable `Date`, the client's idea of
      server time is the header's time less the allowance, and it then
      advances with the device clock. */
  lemma OffsetTracksServerClock(previous: int, header: string, parseHttpDate: string -> Option<Instant>, deviceNow: Instant, elapsed: int)
    requires parseHttpDate(header).Some?
    ensures deviceNow + elapsed + NextOffset(previous, Some(header), parseHttpDate, deviceNow)
      == parseHttpDate(header).value - 100 + elapsed
  {
  }

  /** The offset depends only on the last readable header: syncing twice
      with replies that both parse keeps only the second. */
  lemma LastReadableHeaderWins(previous: int, h1: Option<string>, h2: Option<string>, parseHttpDate: string -> Option<Instant>, t1: Instant, t2: Instant)
    ensures ServerTime(h2, parseHttpDate).Some? ==>
      NextOffset(NextOffset(previous, h1, parseHttpDate, t1), h2, parseHttpDate, t2)
        == NextOffset(previous, h2, parseHttpDate, t2)
    ensures ServerTime(h2, parseHttpDate).None? ==>
      NextOffset(NextOffset(previous, h1, parseHttpDate, t1), h2, parseHttpDate, t2)
        == NextOffset(previous, h1, parseHttpDate, t1)
  {
  }
}
