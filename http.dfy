/**
 * One HTTP exchange as the filters see it: the request as a value, and the mutable
 * response together with the filter chain and the security context.
 */
module Http {
  import opened Wrappers
  import opened ResponseCodes
  import opened ResponseUtils

  /** The JSON body of a login request. */
  datatype LoginRequestDto = LoginRequestDto(username: string, password: string)

  /**
   * A request: its URI and HTTP method, the two tokens as JwtProvider extracts them from
   * the headers, and the login body as the JSON reader decodes it (`None` when
   * reading it throws IOException).
   */
  datatype Request = Request(
    uri: string,
    httpMethod: string,
    accessToken: Option<string>,
    refreshToken: Option<string>,
    loginBody: Option<LoginRequestDto>)

  /** The observable state of an exchange. */
  datatype ExchangeState = ExchangeState(
    status: int,
    headers: seq<(string, string)>,
    body: Option<HttpResponseDto<()>>,
    downstreamInvoked: nat,
    authUser: Option<string>)

  /** A response a servlet container hands to the first filter. */
  function InitialState(): (s: ExchangeState)
    ensures s.status == OK && s.headers == [] && s.body.None?
    ensures s.downstreamInvoked == 0 && s.authUser.None?
  {
    ExchangeState(OK, [], None, 0, None)
  }

  /**
   * The response (status, added headers, written body), how many times the rest
   * of the filter chain ran, and whom the security context authenticates.
   */
  class Exchange {
    var status: int
    var headers: seq<(string, string)>
    var body: Option<HttpResponseDto<()>>
    var downstreamInvoked: nat
    var authUser: Option<string>

    function State(): (s: ExchangeState)
      reads this
    {
      ExchangeState(status, headers, body, downstreamInvoked, authUser)
    }

    constructor ()
      ensures State() == InitialState()
    {
      status, headers, body, downstreamInvoked, authUser := OK, [], None, 0, None;
    }

    /** HttpServletResponse.addHeader. */
    method AddHeader(name: string, value: string)
      modifies this
      ensures State() == old(State()).(headers := old(headers) + [(name, value)])
    {
      headers := headers + [(name, value)];
    }

    /** HttpServletResponse.setStatus. */
    method SetStatus(s: int)
      modifies this
      ensures State() == old(State()).(status := s)
    {
      status := s;
    }

    /** Serialising an envelope to the output stream. */
    method WriteBody(dto: HttpResponseDto<()>)
      modifies this
      ensures State() == old(State()).(body := Some(dto))
    {
      body := Some(dto);
    }

    /** FilterChain.doFilter: the rest of the chain runs once. */
    method DoFilter()
      modifies this
      ensures State() == old(State()).(downstreamInvoked := old(downstreamInvoked) + 1)
    {
      downstreamInvoked := downstreamInvoked + 1;
    }

    /** SecurityContextHolder.setContext with an authentication for `username`. */
    method SetAuthentication(username: string)
      modifies this
      ensures State() == old(State()).(authUser := Some(username))
    {
      authUser := Some(username);
    }
  }
}
