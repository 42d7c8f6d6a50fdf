/**
  The HTTP client a sink posts through (IHttpClient), reduced to what the sinks
  observe: the status of each POST or the exception it throws. The transport
  itself is the function `respond`.
*/
module HttpClients {
  import opened Wrappers
  import opened Exceptions

  /** What awaiting PostAsync gives: a response status, or an exception. */
  datatype HttpResponse = Status(code: int) | Thrown(error: Exception)

  /** HttpResponseMessage.IsSuccessStatusCode */
  predicate IsSuccessStatusCode(code: int) {
    200 <= code <= 299
  }

  class HttpClient {
    const respond: (string, string) -> HttpResponse
    /** The (url, body) of every POST, in order. */
    var posts: seq<(string, string)>
    /** How many times Dispose was called. */
    var disposals: nat

    constructor(respond: (string, string) -> HttpResponse)
      ensures this.respond == respond && posts == [] && disposals == 0
    {
      this.respond := respond;
      posts := [];
      disposals := 0;
    }

    method PostAsync(url: string, content: string) returns (r: HttpResponse)
      modifies this
      ensures posts == old(posts) + [(url, content)] && disposals == old(disposals)
      ensures r == respond(url, content)
    {
      posts := posts + [(url, content)];
      r := respond(url, content);
    }

    method Dispose()
      modifies this
      ensures disposals == old(disposals) + 1 && posts == old(posts)
    {
      disposals := disposals + 1;
    }
  }

  /**
    An Action<Exception> callback, reduced to the exceptions it has received
    and, for each exception it is given, the exception it throws, if any.
  */
  class FailureCallback {
    const throws: Exception -> Option<Exception>
    var received: seq<Exception>

    constructor(throws: Exception -> Option<Exception>)
      ensures this.throws == throws && received == []
    {
      this.throws := throws;
      received := [];
    }

    /** Invoke: the exception is received; what the callback throws is returned. */
    method Invoke(e: Exception) returns (thrown: Option<Exception>)
      modifies this
      ensures received == old(received) + [e]
      ensures thrown == throws(e)
    {
      received := received + [e];
      thrown := throws(e);
    }
  }
}
