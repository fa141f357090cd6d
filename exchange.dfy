/**
 * The parts of an HTTP exchange the middleware touches: the inbound request
 * (its header table, updated in place, and the fields the handlers read), the
 * response writer, and the next handler of the chain.
 */
module Exchange {
  import opened Wrappers
  import opened HeaderTable

  /** A status code net/http accepts in WriteHeader (it panics on any other). */
  type StatusCode = c: int | 100 <= c <= 999 witness 200

  /** The status both gates write when their configuration or the authority fails. */
  const StatusInternalServerError: StatusCode := 500

  /** An inbound request; `verb` is its method (GET, POST, ...). */
  class Request {
    const header: Header
    const verb: string
    const host: string
    /** The connection is TLS (`r.TLS != nil`). */
    const tls: bool
    /** The host part of `RemoteAddr` as net.SplitHostPort gives it, or None when it does not split. */
    const clientIP: Option<string>
    /** `r.URL.RequestURI()`. */
    const urlRequestURI: string
    var requestURI: string

    constructor (header: Header, verb: string, host: string, tls: bool,
                 clientIP: Option<string>, urlRequestURI: string, requestURI: string)
      ensures this.header == header && this.verb == verb && this.host == host
      ensures this.tls == tls && this.clientIP == clientIP
      ensures this.urlRequestURI == urlRequestURI && this.requestURI == requestURI
    {
      this.header := header;
      this.verb := verb;
      this.host := host;
      this.tls := tls;
      this.clientIP := clientIP;
      this.urlRequestURI := urlRequestURI;
      this.requestURI := requestURI;
    }
  }

  /**
   * A response writer: its header table, the status written (0 while none
   * is) and the body written so far.
   */
  class ResponseWriter {
    const header: Header
    var status: int
    var body: string

    constructor (header: Header)
      ensures this.header == header && status == 0 && body == ""
    {
      this.header := header;
      status := 0;
      body := "";
    }

    /** http.ResponseWriter.WriteHeader: only the first status written counts. */
    method WriteHeader(code: StatusCode)
      modifies this
      ensures status == if old(status) == 0 then code else old(status)
      ensures body == old(body)
    {
      if status == 0 {
        status := code;
      }
    }

    /** http.ResponseWriter.Write: a write before any status implies 200. */
    method Write(data: string)
      modifies this
      ensures status == if old(status) == 0 then 200 else old(status)
      ensures body == old(body) + data
    {
      if status == 0 {
        status := 200;
      }
      body := body + data;
    }
  }

  /** What the next handler was given: the request's header table and request URI. */
  datatype Call = Call(header: HeaderMap, requestURI: string)

  /** The next handler of the chain, recording each request it serves. */
  class Next {
    var calls: seq<Call>

    constructor ()
      ensures calls == []
    {
      calls := [];
    }

    method ServeHTTP(w: ResponseWriter, r: Request)
      modifies this
      ensures calls == old(calls) + [Call(r.header.m, r.requestURI)]
    {
      calls := calls + [Call(r.header.m, r.requestURI)];
    }
  }

  /**
   * What a handler does to an exchange: the request's header table and
   * request URI afterwards, the response header table, the status it writes
   * (0 for none), the body it writes, and whether it calls the next handler
   * (once, with that request).
   */
  datatype Effect = Effect(
    request: HeaderMap,
    requestURI: string,
    response: HeaderMap,
    code: int,
    body: string,
    forwarded: bool)
}
