/** The response writer that compresses lazily: it holds the status back until the first
    nonempty write, decides then whether to compress, and passes everything on. */
module GzipWriters {

  newtype byte = x: int | 0 <= x < 256

  const STATUS_OK := 200
  const STATUS_NO_CONTENT := 204
  const STATUS_NOT_MODIFIED := 304

  /** The gzip format, of which only losslessness matters, and the test for compressible media types. */
  datatype Codec = Codec(encode: seq<byte> -> seq<byte>, decode: seq<byte> -> seq<byte>, compressible: string -> bool)

  ghost predicate Lossless(codec: Codec) {
    forall data {:trigger codec.encode(data)} :: codec.decode(codec.encode(data)) == data
  }

  /** The 1xx codes, which the writer passes on at once. */
  predicate Interim(code: int) {
    100 <= code < 200
  }

  /** A status code that can end up as the response's; zero stands for none. */
  predicate Final(code: int) {
    code != 0 && !Interim(code)
  }

  /** The response as the server sends it: headers may change until the status is written. */
  class ResponseWriter {
    var contentType: string
    var contentEncoding: string
    var hasLength: bool
    var interim: seq<int>
    var statuses: seq<int>
    var sentEncoding: string
    var sentLength: bool
    var body: seq<byte>

    constructor (contentType: string, contentEncoding: string, hasLength: bool)
      ensures this.contentType == contentType && this.contentEncoding == contentEncoding && this.hasLength == hasLength
      ensures interim == [] && statuses == [] && body == []
    {
      this.contentType, this.contentEncoding, this.hasLength := contentType, contentEncoding, hasLength;
      interim, statuses, body, sentEncoding, sentLength := [], [], [], "", false;
    }

    method WriteHeader(code: int)
      modifies this
      ensures contentType == old(contentType) && contentEncoding == old(contentEncoding)
          && hasLength == old(hasLength) && body == old(body)
      ensures Interim(code) ==> interim == old(interim) + [code] && statuses == old(statuses)
                                && sentEncoding == old(sentEncoding) && sentLength == old(sentLength)
      ensures !Interim(code) ==> interim == old(interim) && statuses == old(statuses) + [code]
      ensures !Interim(code) && old(statuses) == [] ==> sentEncoding == contentEncoding && sentLength == hasLength
      ensures !Interim(code) && old(statuses) != []
          ==> sentEncoding == old(sentEncoding) && sentLength == old(sentLength)
    {
      if Interim(code) {
        interim := interim + [code];
      } else {
        if statuses == [] {
          sentEncoding, sentLength := contentEncoding, hasLength;
        }
        statuses := statuses + [code];
      }
    }

    method Write(data: seq<byte>)
      requires statuses != []
      modifies this`body
      ensures body == old(body) + data
    {
      body := body + data;
    }
  }

  // ---------------------------------------------------------------- what a handler did

  datatype Call =
    | SetHeaders(contentType: string, contentEncoding: string, hasLength: bool)
    | WriteHeader(code: int)
    | Write(data: seq<byte>)

  predicate Starts(call: Call) {
    call.Write? && call.data != []
  }

  predicate Started(calls: seq<Call>) {
    exists i :: 0 <= i < |calls| && Starts(calls[i])
  }

  /** The first final code given before the first nonempty write; zero if there is none. */
  function GivenCode(calls: seq<Call>): int {
    if calls == [] || Starts(calls[0]) then 0
    else if calls[0].WriteHeader? && Final(calls[0].code) then calls[0].code
    else GivenCode(calls[1..])
  }

  function Status(calls: seq<Call>): int {
    if GivenCode(calls) != 0 then GivenCode(calls) else STATUS_OK
  }

  /** The interim codes given before the final code and the first nonempty write. */
  function InterimCodes(calls: seq<Call>): seq<int> {
    if calls == [] || Starts(calls[0]) || (calls[0].WriteHeader? && Final(calls[0].code)) then []
    else (if calls[0].WriteHeader? && Interim(calls[0].code) then [calls[0].code] else []) + InterimCodes(calls[1..])
  }

  /** Everything written, in order. */
  function Written(calls: seq<Call>): seq<byte> {
    if calls == [] then []
    else (if calls[0].Write? then calls[0].data else []) + Written(calls[1..])
  }

  datatype Headers = Headers(contentType: string, contentEncoding: string, hasLength: bool)

  /** The headers in force at the first nonempty write, or at the end if there is none. */
  function HeadersAtStart(initial: Headers, calls: seq<Call>): Headers
    decreases |calls|
  {
    if calls == [] || Starts(calls[0]) then initial
    else
      var call := calls[0];
      var next := if call.SetHeaders? then Headers(call.contentType, call.contentEncoding, call.hasLength) else initial;
      HeadersAtStart(next, calls[1..])
  }

  predicate Compresses(codec: Codec, initial: Headers, calls: seq<Call>) {
    var headers := HeadersAtStart(initial, calls);
    && Status(calls) != STATUS_NO_CONTENT && Status(calls) != STATUS_NOT_MODIFIED
    && headers.contentEncoding == "" && codec.compressible(headers.contentType)
  }

  lemma StartedAppend(calls: seq<Call>, call: Call)
    ensures Started(calls + [call]) <==> Started(calls) || Starts(call)
  {
    var all := calls + [call];
    if Started(calls) {
      var i :| 0 <= i < |calls| && Starts(calls[i]);
      assert Starts(all[i]);
    }
    if Starts(call) {
      assert Starts(all[|calls|]);
    }
  }

  lemma StartedTail(calls: seq<Call>)
    requires calls != []
    ensures Started(calls) <==> Starts(calls[0]) || Started(calls[1..])
  {
    StartedPrepend(calls[0], calls[1..]);
    assert [calls[0]] + calls[1..] == calls;
  }

  lemma StartedPrepend(call: Call, calls: seq<Call>)
    ensures Started([call] + calls) <==> Starts(call) || Started(calls)
  {
    var all := [call] + calls;
    if Starts(call) {
      assert Starts(all[0]);
    }
    if Started(calls) {
      var i :| 0 <= i < |calls| && Starts(calls[i]);
      assert Starts(all[i + 1]);
    }
  }

  lemma {:induction false} AppendWritten(calls: seq<Call>, call: Call)
    ensures Written(calls + [call]) == Written(calls) + if call.Write? then call.data else []
  {
    if calls != [] {
      assert (calls + [call])[1..] == calls[1..] + [call];
      AppendWritten(calls[1..], call);
    }
  }

  lemma {:induction false} AppendCode(calls: seq<Call>, call: Call)
    ensures GivenCode(calls + [call]) ==
      if !Started(calls) && GivenCode(calls) == 0 && call.WriteHeader? && Final(call.code) then call.code
          else GivenCode(calls)
    ensures InterimCodes(calls + [call]) == InterimCodes(calls) +
      if !Started(calls) && GivenCode(calls) == 0 && call.WriteHeader? && Interim(call.code) then [call.code] else []
  {
    if calls != [] {
      assert (calls + [call])[1..] == calls[1..] + [call];
      StartedTail(calls);
      AppendCode(calls[1..], call);
    }
  }

  lemma {:induction false} AppendHeaders(initial: Headers, calls: seq<Call>, call: Call)
    ensures HeadersAtStart(initial, calls + [call]) ==
      if !Started(calls) && call.SetHeaders? then Headers(call.contentType, call.contentEncoding, call.hasLength)
      else HeadersAtStart(initial, calls)
    decreases |calls|
  {
    if calls != [] {
      assert (calls + [call])[1..] == calls[1..] + [call];
      StartedTail(calls);
      var next := if calls[0].SetHeaders?
          then Headers(calls[0].contentType, calls[0].contentEncoding, calls[0].hasLength) else initial;
      AppendHeaders(next, calls[1..], call);
    }
  }

  /** Before the first call nothing is given, started or written. */
  lemma NoCalls(initial: Headers)
    ensures !Started([]) && GivenCode([]) == 0 && InterimCodes([]) == [] && Written([]) == []
    ensures HeadersAtStart(initial, []) == initial
  {
  }

  /** What one more call adds to what the calls so far amount to. */
  lemma Append(initial: Headers, calls: seq<Call>, call: Call)
    ensures Written(calls + [call]) == Written(calls) + if call.Write? then call.data else []
    ensures GivenCode(calls + [call]) ==
      if && !Started(calls) && GivenCode(calls) == 0
         && call.WriteHeader? && !(100 <= call.code < 200) && call.code != 0
      then call.code else GivenCode(calls)
    ensures InterimCodes(calls + [call]) == InterimCodes(calls) +
      if !Started(calls) && GivenCode(calls) == 0 && call.WriteHeader? && 100 <= call.code < 200
      then [call.code] else []
    ensures HeadersAtStart(initial, calls + [call]) ==
      if !Started(calls) && call.SetHeaders? then Headers(call.contentType, call.contentEncoding, call.hasLength)
      else HeadersAtStart(initial, calls)
    ensures Started(calls + [call]) <==> Started(calls) || (call.Write? && call.data != [])
  {
    AppendWritten(calls, call);
    AppendCode(calls, call);
    AppendHeaders(initial, calls, call);
    StartedAppend(calls, call);
  }

  // ---------------------------------------------------------------- the writers

  /** A gzip stream over a response: what was written to it appears, encoded, when it is closed. */
  class GzipStream {
    const codec: Codec
    const target: ResponseWriter
    var plain: seq<byte>

    constructor (codec: Codec, target: ResponseWriter)
      ensures this.codec == codec && this.target == target && plain == []
    {
      this.codec, this.target, plain := codec, target, [];
    }

    method Write(data: seq<byte>)
      modifies this
      ensures plain == old(plain) + data
    {
      plain := plain + data;
    }

    method Close()
      requires target.statuses != []
      modifies target`body
      ensures target.body == old(target.body) + codec.encode(plain)
    {
      target.Write(codec.encode(plain));
    }
  }

  class GzipResponseWriter {
    const codec: Codec
    const inner: ResponseWriter
    ghost const initial: Headers
    var code: int
    var sent: bool
    var gz: GzipStream?
    /** The handler's calls so far. */
    ghost var calls: seq<Call>

    ghost predicate Valid()
      reads this, inner, gz
    {
      && sent == Started(calls)
      && code == (if GivenCode(calls) != 0 || sent then Status(calls) else 0)
      && inner.statuses == (if sent then [Status(calls)] else [])
      && inner.interim == InterimCodes(calls)
      && (!sent ==>
            Headers(inner.contentType, inner.contentEncoding, inner.hasLength) == HeadersAtStart(initial, calls))
      && (!sent ==> gz == null && Written(calls) == [] && inner.body == [])
      && (sent ==> (gz != null <==> Compresses(codec, initial, calls)))
      && (sent && gz == null ==> inner.body == Written(calls)
                                 && inner.sentEncoding == HeadersAtStart(initial, calls).contentEncoding
                                 && inner.sentLength == HeadersAtStart(initial, calls).hasLength)
      && (gz != null ==> gz.codec == codec && gz.target == inner && gz.plain == Written(calls)
                         && inner.body == [] && inner.sentEncoding == "gzip" && !inner.sentLength)
    }

    constructor (codec: Codec, inner: ResponseWriter)
      requires inner.statuses == [] && inner.interim == [] && inner.body == []
      ensures Valid() && this.codec == codec && this.inner == inner && calls == [] && gz == null
      ensures initial == Headers(inner.contentType, inner.contentEncoding, inner.hasLength)
    {
      this.codec, this.inner := codec, inner;
      initial := Headers(inner.contentType, inner.contentEncoding, inner.hasLength);
      code, sent, gz, calls := 0, false, null, [];
    }

    /** The handler sets headers on the response directly. */
    method SetHeaders(contentType: string, contentEncoding: string, hasLength: bool)
      requires Valid()
      modifies this, inner
      ensures Valid() && calls == old(calls) + [Call.SetHeaders(contentType, contentEncoding, hasLength)]
          && gz == old(gz)
    {
      ghost var call := Call.SetHeaders(contentType, contentEncoding, hasLength);
      Append(initial, calls, call);
      calls := calls + [call];
      inner.contentType, inner.contentEncoding, inner.hasLength := contentType, contentEncoding, hasLength;
    }

    method WriteHeader(code: int)
      requires Valid()
      modifies this, inner
      ensures Valid() && calls == old(calls) + [Call.WriteHeader(code)] && gz == old(gz)
    {
      ghost var call := Call.WriteHeader(code);
      Append(initial, calls, call);
      calls := calls + [call];
      if sent || this.code != 0 {
        return;
      }
      if code >= 100 && code < 200 {
        inner.WriteHeader(code);
        return;
      }
      this.code := code;
    }

    method Write(data: seq<byte>) returns (n: nat)
      requires Valid()
      modifies this, inner, gz
      ensures Valid() && calls == old(calls) + [Call.Write(data)] && n == |data|
      ensures gz != old(gz) ==> fresh(gz)
    {
      ghost var call := Call.Write(data);
      Append(initial, calls, call);
      if !sent {
        if |data| == 0 {
          calls := calls + [call];
          return 0;
        }
        Start();
      }
      calls := calls + [call];
      if gz != null {
        gz.Write(data);
      } else {
        inner.Write(data);
      }
      return |data|;
    }

    /** Fixes the status and decides on compression. */
    method Start()
      requires Valid() && !sent
      modifies this`code, this`sent, this`gz, inner
      ensures sent && calls == old(calls) && code == Status(calls)
      ensures code == if GivenCode(calls) != 0 then GivenCode(calls) else 200
      ensures inner.statuses == [Status(calls)] && inner.interim == old(inner.interim) && inner.body == []
      ensures var headers := HeadersAtStart(initial, calls);
        gz != null <==> && Status(calls) != 204 && Status(calls) != 304
                        && headers.contentEncoding == "" && codec.compressible(headers.contentType)
      ensures gz == null ==> inner.sentEncoding == HeadersAtStart(initial, calls).contentEncoding
      ensures gz == null ==> inner.sentLength == HeadersAtStart(initial, calls).hasLength
      ensures gz != null ==> fresh(gz) && gz.codec == codec && gz.target == inner && gz.plain == []
      ensures gz != null ==> inner.sentEncoding == "gzip" && !inner.sentLength
    {
      GivenCodeIsFinal(calls);
      if code == 0 {
        code := STATUS_OK;
      }
      if code != STATUS_NO_CONTENT && code != STATUS_NOT_MODIFIED && inner.contentEncoding == ""
          && codec.compressible(inner.contentType) {
        inner.contentEncoding := "gzip";
        inner.hasLength := false;
        inner.WriteHeader(code);
        gz := new GzipStream(codec, inner);
      } else {
        inner.WriteHeader(code);
      }
      sent := true;
    }

    /** After the handler's last call: the response has at most one final status, the first one
        given before the first nonempty write, or 200; and its body, decoded if the writer
        turned compression on, is everything written. */
    method Finish()
      requires Valid() && Lossless(codec)
      modifies this`sent, inner
      ensures inner.statuses ==
        if GivenCode(calls) != 0 then [GivenCode(calls)] else if Started(calls) then [200] else []
      ensures inner.interim == InterimCodes(calls)
      ensures var status := if GivenCode(calls) != 0 then GivenCode(calls) else 200;
        var headers := HeadersAtStart(initial, calls);
        if && Started(calls) && status != 204 && status != 304
           && headers.contentEncoding == "" && codec.compressible(headers.contentType)
        then codec.decode(inner.body) == Written(calls) && inner.sentEncoding == "gzip" && !inner.sentLength
        else
          && inner.body == Written(calls)
          && (Started(calls) ==>
                inner.sentEncoding == headers.contentEncoding && inner.sentLength == headers.hasLength)
    {
      GivenCodeIsFinal(calls);
      if !sent && code != 0 {
        inner.WriteHeader(code);
        sent := true;
      }
      if gz != null {
        gz.Close();
        assert inner.body == codec.encode(gz.plain);
      }
    }
  }

  lemma {:induction false} GivenCodeIsFinal(calls: seq<Call>)
    ensures GivenCode(calls) == 0 || Final(GivenCode(calls))
  {
    if calls != [] {
      GivenCodeIsFinal(calls[1..]);
    }
  }

  /** Runs a handler's calls through the writer, as the middleware does. */
  method Serve(codec: Codec, inner: ResponseWriter, calls: seq<Call>)
    requires Lossless(codec) && inner.statuses == [] && inner.interim == [] && inner.body == []
    modifies inner
    ensures inner.statuses == if GivenCode(calls) != 0 then [GivenCode(calls)] else if Started(calls) then [200] else []
    ensures inner.interim == InterimCodes(calls)
    ensures var before := Headers(old(inner.contentType), old(inner.contentEncoding), old(inner.hasLength));
      var status, headers := if GivenCode(calls) != 0 then GivenCode(calls) else 200, HeadersAtStart(before, calls);
      if && Started(calls) && status != 204 && status != 304
         && headers.contentEncoding == "" && codec.compressible(headers.contentType)
      then codec.decode(inner.body) == Written(calls) && inner.sentEncoding == "gzip" && !inner.sentLength
      else
        && inner.body == Written(calls)
        && (Started(calls) ==>
              inner.sentEncoding == headers.contentEncoding && inner.sentLength == headers.hasLength)
  {
    var writer := new GzipResponseWriter(codec, inner);
    var i := 0;
    while i < |calls|
      invariant 0 <= i <= |calls|
      invariant fresh(writer) && writer.inner == inner && writer.codec == codec
      invariant writer.initial == Headers(old(inner.contentType), old(inner.contentEncoding), old(inner.hasLength))
      invariant writer.gz != null ==> fresh(writer.gz)
      invariant writer.Valid() && writer.calls == calls[..i]
    {
      assert calls[..i + 1] == calls[..i] + [calls[i]];
      match calls[i] {
        case SetHeaders(contentType, contentEncoding, hasLength) =>
            writer.SetHeaders(contentType, contentEncoding, hasLength);
        case WriteHeader(code) => writer.WriteHeader(code);
        case Write(data) => var n := writer.Write(data);
      }
      i := i + 1;
    }
    assert calls[..|calls|] == calls;
    writer.Finish();
  }
}
