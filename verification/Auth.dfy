/** The server's side of user authentication (RFC 4252): what each packet does
    to the state, for every answer the handler may give, and what that means
    over whole connections. */
module Auth {
  import opened Wire

  datatype Method = NoMethod | Password | PublicKey | HostBased | KeyboardInteractive

  /** What the handler says to a request; `Fails` is an error of the handler. */
  datatype Answer =
    | Accept
    | Reject(methods: Option<seq<Method>>, partialSuccess: bool)
    | UnsupportedMethod
    | Partial(prompts: seq<string>)
    | Fails

  /** Everything the handler and the verifier would answer to one packet;
      `bannerFails`, `greetingFails` and `openFails` are errors of the handler when
      asked for a banner, told of a login and asked for a channel. */
  datatype Answers = Answers(banner: Option<string>, bannerFails: bool, offered: Answer, verdict: Answer,
                             signatureValid: bool, greetingFails: bool, allowed: bool, openFails: bool)

  /** The server's settings; `maxAttempts` is what an administrator allows. */
  datatype Config = Config(methods: seq<Method>, maxAttempts: nat)

  datatype Parsed = Key | Certificate(inDate: bool, signed: bool) | UnknownAlgorithm | Unparsable

  datatype Request =
    | PasswordRequest(wellFormed: bool)
    | KeyRequest(isReal: bool, algo: string, key: seq<byte>, parsed: Parsed, signatureParses: bool)
    | NoneRequest
    | InteractiveRequest(submethods: Option<string>)
    | OtherRequest

  /** Messages by what the server reads off them; `None` where a field does
      not decode. */
  datatype Packet =
    | ServiceRequest(name: Option<string>)
    | UserAuth(fields: Option<(string, string, Request)>)  // user, service, method
    | InfoResponse(wellFormed: bool)
    | ChannelOpen(supported: Option<bool>)
    | Unrelated

  datatype Current = Nothing | Offered(algo: string, key: seq<byte>, sentPkOk: bool) | Interactive(submethods: string)

  datatype AuthRequest = AuthRequest(methods: seq<Method>, partialSuccess: bool, current: Current, rejections: nat)

  datatype State = WaitingService | WaitingRequest(auth: AuthRequest) | InitCompression | Authenticated

  datatype Reply =
    | ServiceAccept
    | Banner(text: string)
    | Failure(methods: seq<Method>, partialSuccess: bool)
    | Success
    | PkOk(algo: string, key: seq<byte>)
    | InfoRequest(prompts: seq<string>)
    | OpenConfirmation
    | OpenFailure
    | OpenRequest

  datatype Server = Server(config: Config, state: State, user: string, attempts: nat, out: seq<Reply>, channels: nat, ended: bool)

  const USERAUTH := "ssh-userauth"
  const CONNECTION := "ssh-connection"

  function Without(methods: seq<Method>, m: Method): (r: seq<Method>)
    ensures forall n :: n in r <==> n in methods && n != m
  {
    if methods == [] then [] else (if methods[0] == m then [] else [methods[0]]) + Without(methods[1..], m)
  }

  // ---------------------------------------------------------------------
  // One packet
  // ---------------------------------------------------------------------

  function Said(s: Server, r: Reply): Server {
    s.(out := s.out + [r])
  }

  function Ended(s: Server): Server {
    s.(ended := true)
  }

  function Succeeded(s: Server): Server {
    Said(s, Success).(state := InitCompression)
  }

  function Rejected(s: Server, auth: AuthRequest): Server {
    Said(s, Failure(auth.methods, auth.partialSuccess))
      .(state := WaitingRequest(auth.(current := Nothing, rejections := auth.rejections + 1)))
  }

  function Proceeding(a: Answer, otherwise: seq<Method>): seq<Method> {
    if a.Reject? && a.methods.Some? then a.methods.value else otherwise
  }

  /** A verdict other than acceptance; the partial-success flag is dropped. */
  function Refused(s: Server, auth: AuthRequest, a: Answer, otherwise: seq<Method>): Server {
    Rejected(s.(user := ""), auth.(methods := Proceeding(a, otherwise), partialSuccess := false))
  }

  function Judged(s: Server, auth: AuthRequest, a: Answer, otherwise: seq<Method>): Server {
    if a.Accept? then Succeeded(s) else if a.Fails? then Ended(s) else Refused(s, auth, a, otherwise)
  }

  function OnPassword(s: Server, auth: AuthRequest, user: string, wellFormed: bool, h: Answers): Server {
    if !wellFormed then Ended(s.(user := user))
    else Judged(s.(user := user), auth, h.verdict, Without(auth.methods, Password))
  }

  function OnSigned(s: Server, auth: AuthRequest, h: Answers): Server {
    if !h.signatureValid then Rejected(s, auth) else Judged(s, auth, h.verdict, auth.methods)
  }

  predicate PreviouslyOffered(s: Server, auth: AuthRequest, user: string) {
    auth.current.Offered? && auth.current.sentPkOk && user == s.user
  }

  function OnRealKey(s: Server, auth: AuthRequest, user: string, h: Answers): Server {
    if PreviouslyOffered(s, auth, user) then OnSigned(s, auth, h)
    else if s.user == "" then
      var t := s.(user := user);
      if h.offered.Accept? then OnSigned(t, auth, h) else if h.offered.Fails? then Ended(t) else Rejected(t, auth)
    else Rejected(s, auth)
  }

  function OnQueriedKey(s: Server, auth: AuthRequest, user: string, r: Request, h: Answers): Server
    requires r.KeyRequest?
  {
    var t := s.(user := user);
    if h.offered.Accept? then
      Said(t, PkOk(r.algo, r.key)).(state := WaitingRequest(auth.(current := Offered(r.algo, r.key, true))))
    else if h.offered.Fails? then Ended(t)
    else Refused(t, auth, h.offered, auth.methods)
  }

  predicate UsableKey(p: Parsed) {
    p.Key? || (p.Certificate? && p.inDate && p.signed)
  }

  function OnPublicKey(s: Server, auth: AuthRequest, user: string, r: Request, h: Answers): Server
    requires r.KeyRequest?
  {
    if r.parsed.Unparsable? then Ended(s)
    else if !UsableKey(r.parsed) then Rejected(s, auth)
    else if !r.isReal then OnQueriedKey(s, auth, user, r, h)
    else if !r.signatureParses then Ended(s)
    else OnRealKey(s, auth, user, h)
  }

  function Replied(s: Server, auth: AuthRequest, a: Answer): Server {
    match a
    case Accept => Succeeded(s)
    case Reject(_, partialSuccess) =>
      Rejected(s, auth.(methods := Proceeding(a, auth.methods), partialSuccess := partialSuccess))
    case Partial(prompts) => Said(s, InfoRequest(prompts)).(state := WaitingRequest(auth))
    case UnsupportedMethod => Ended(s)
    case Fails => Ended(s)
  }

  function OnRequest(s: Server, auth: AuthRequest, user: string, r: Request, h: Answers): Server {
    match r
    case PasswordRequest(wellFormed) => OnPassword(s, auth, user, wellFormed, h)
    case KeyRequest(_, _, _, _, _) => OnPublicKey(s, auth, user, r, h)
    case NoneRequest => Judged(s, auth, h.verdict, Without(auth.methods, NoMethod))
    case InteractiveRequest(submethods) =>
      if submethods.None? then Ended(s.(user := user))
      else Replied(s.(user := user), auth.(current := Interactive(submethods.value)), h.verdict)
    case OtherRequest => Rejected(s, auth)
  }

  function OnUserAuth(s: Server, auth: AuthRequest, p: Packet, h: Answers): Server
    requires p.UserAuth?
  {
    if p.fields.None? || p.fields.value.1 != CONNECTION then Ended(s) else
      var t := OnRequest(s, auth, p.fields.value.0, p.fields.value.2, h);
      if t.ended then t else Greeted(t.(attempts := t.attempts + 1), h)
  }

  /** The handler is told of a login, and may end the connection over it. */
  function Greeted(t: Server, h: Answers): Server {
    if t.state.InitCompression? && h.greetingFails then Ended(t) else t
  }

  function OnService(s: Server, name: Option<string>, h: Answers): Server {
    if name.None? then Ended(s)
    else if name.value != USERAUTH then s
    else if h.bannerFails then Ended(s)
    else
      var t := Said(s, ServiceAccept);
      (if h.banner.Some? then Said(t, Banner(h.banner.value)) else t)
        .(state := WaitingRequest(AuthRequest(s.config.methods, false, Nothing, 0)))
  }

  function ReadAuthenticated(s: Server, p: Packet, h: Answers): Server {
    if !p.ChannelOpen? then s
    else if p.supported.None? || (p.supported.value && h.openFails) then Ended(s)
    else if p.supported.value && h.allowed then Said(s, OpenConfirmation).(channels := s.channels + 1)
    else Said(s, OpenFailure)
  }

  /** `process_packet` */
  function Processed(s: Server, p: Packet, h: Answers): Server {
    if s.ended then s else
    match s.state
    case WaitingService => if p.ServiceRequest? then OnService(s, p.name, h) else s
    case WaitingRequest(auth) =>
      if p.UserAuth? then OnUserAuth(s, auth, p, h)
      else if p.InfoResponse? then
        if !auth.current.Interactive? then Rejected(s, auth)
        else if !p.wellFormed then Ended(s)
        else Greeted(Replied(s, auth, h.verdict), h)
      else s
    case InitCompression => ReadAuthenticated(s.(state := Authenticated), p, h)
    case Authenticated => ReadAuthenticated(s, p, h)
  }

  /** `channel_open_generic`: opening a channel towards the client. */
  function Opened(s: Server): Server {
    if s.ended || !(s.state.InitCompression? || s.state.Authenticated?) then s
    else Said(s, OpenRequest).(channels := s.channels + 1)
  }

  // ---------------------------------------------------------------------
  // The server's own code
  // ---------------------------------------------------------------------

  class ServerSession {
    const config: Config
    var state: State
    var authUser: string
    var authAttempts: nat
    var write: seq<Reply>
    var channels: nat
    var ended: bool

    ghost function View(): Server
      reads this
    {
      Server(config, state, authUser, authAttempts, write, channels, ended)
    }

    constructor (config: Config)
      ensures View() == Start(config)
    {
      this.config := config;
      state := WaitingService;
      authUser, authAttempts, write, channels, ended := "", 0, [], 0, false;
    }

    method RejectAuthRequest(auth: AuthRequest)
      modifies this
      ensures View() == Rejected(old(View()), auth)
    {
      write := write + [Failure(auth.methods, auth.partialSuccess)];
      state := WaitingRequest(auth.(current := Nothing, rejections := auth.rejections + 1));
    }

    method Succeed()
      modifies this
      ensures View() == Succeeded(old(View()))
    {
      write := write + [Success];
      state := InitCompression;
    }

    /** A password, none or signature verdict. */
    method Judge(auth: AuthRequest, a: Answer, remove: Option<Method>)
      modifies this
      ensures View() == Judged(old(View()), auth, a, if remove.Some? then Without(auth.methods, remove.value) else auth.methods)
    {
      if a.Fails? {
        ended := true;
        return;
      }
      if a.Accept? {
        Succeed();
      } else {
        authUser := "";
        var next := auth;
        if a.Reject? && a.methods.Some? {
          next := next.(methods := a.methods.value, partialSuccess := a.partialSuccess);
        } else if remove.Some? {
          next := next.(methods := Without(next.methods, remove.value));
        }
        next := next.(partialSuccess := false);
        RejectAuthRequest(next);
      }
    }

    method ReplyInfoResponse(auth: AuthRequest, a: Answer)
      modifies this
      ensures View() == Replied(old(View()), auth, a)
    {
      match a {
        case Accept =>
          Succeed();
        case Reject(methods, partialSuccess) =>
          var next := auth;
          if methods.Some? {
            next := next.(methods := methods.value);
          }
          RejectAuthRequest(next.(partialSuccess := partialSuccess));
        case Partial(prompts) =>
          write := write + [InfoRequest(prompts)];
          state := WaitingRequest(auth);
        case UnsupportedMethod =>
          ended := true;
        case Fails =>
          ended := true;
      }
    }

    method ReadAuthRequestPk(auth: AuthRequest, user: string, r: Request, h: Answers)
      requires r.KeyRequest?
      modifies this
      ensures View() == OnPublicKey(old(View()), auth, user, r, h)
    {
      if r.parsed.Unparsable? {
        ended := true;
        return;
      }
      if r.parsed.UnknownAlgorithm? || (r.parsed.Certificate? && (!r.parsed.inDate || !r.parsed.signed)) {
        RejectAuthRequest(auth);
        return;
      }
      if r.isReal {
        var sentPkOk := auth.current.Offered? && auth.current.sentPkOk;
        if !r.signatureParses {
          ended := true;
          return;
        }
        var isValid := false;
        if sentPkOk && user == authUser {
          isValid := true;
        } else if authUser == "" {
          authUser := user;
          if h.offered.Fails? {
            ended := true;
            return;
          }
          isValid := h.offered.Accept?;
        }
        if isValid && h.signatureValid {
          Judge(auth, h.verdict, None);
        } else {
          RejectAuthRequest(auth);
        }
      } else {
        authUser := user;
        if h.offered.Accept? {
          write := write + [PkOk(r.algo, r.key)];
          state := WaitingRequest(auth.(current := Offered(r.algo, r.key, true)));
        } else {
          Judge(auth, h.offered, None);
        }
      }
    }

    method ReadAuthRequest(auth: AuthRequest, user: string, service: string, r: Request, h: Answers)
      modifies this
      ensures View() == if service != CONNECTION then Ended(old(View())) else OnRequest(old(View()), auth, user, r, h)
    {
      if service != CONNECTION {
        ended := true;
        return;
      }
      match r {
        case PasswordRequest(wellFormed) =>
          authUser := user;
          if wellFormed {
            Judge(auth, h.verdict, Some(Password));
          } else {
            ended := true;
          }
        case KeyRequest(_, _, _, _, _) =>
          ReadAuthRequestPk(auth, user, r, h);
        case NoneRequest =>
          Judge(auth, h.verdict, Some(NoMethod));
        case InteractiveRequest(submethods) =>
          authUser := user;
          if submethods.Some? {
            ReplyInfoResponse(auth.(current := Interactive(submethods.value)), h.verdict);
          } else {
            ended := true;
          }
        case OtherRequest =>
          RejectAuthRequest(auth);
      }
    }

    method AcceptService(h: Answers)
      modifies this
      ensures View() == OnService(old(View()), Some(USERAUTH), h)
    {
      if h.bannerFails {
        ended := true;
        return;
      }
      write := write + [ServiceAccept];
      if h.banner.Some? {
        write := write + [Banner(h.banner.value)];
      }
      state := WaitingRequest(AuthRequest(config.methods, false, Nothing, 0));
    }

    method ReadAuthenticatedPacket(p: Packet, h: Answers)
      modifies this
      ensures View() == ReadAuthenticated(old(View()), p, h)
    {
      if p.ChannelOpen? {
        if p.supported.None? {
          ended := true;
        } else if p.supported.value && h.openFails {
          ended := true;
        } else if p.supported.value && h.allowed {
          write := write + [OpenConfirmation];
          channels := channels + 1;
        } else {
          write := write + [OpenFailure];
        }
      }
    }

    method Greet(h: Answers)
      modifies this
      ensures View() == Greeted(old(View()), h)
    {
      if state.InitCompression? && h.greetingFails {
        ended := true;
      }
    }

    method ProcessPacket(p: Packet, h: Answers)
      requires !ended
      modifies this
      ensures View() == Processed(old(View()), p, h)
    {
      match state {
        case WaitingService =>
          if p.ServiceRequest? {
            if p.name.None? {
              ended := true;
            } else if p.name.value == USERAUTH {
              AcceptService(h);
            }
          }
        case WaitingRequest(auth) =>
          if p.UserAuth? {
            if p.fields.None? {
              ended := true;
              return;
            }
            var (user, service, r) := p.fields.value;
            ReadAuthRequest(auth, user, service, r, h);
            if !ended {
              authAttempts := authAttempts + 1;
              Greet(h);
            }
          } else if p.InfoResponse? {
            if !auth.current.Interactive? {
              RejectAuthRequest(auth);
            } else if p.wellFormed {
              ReplyInfoResponse(auth, h.verdict);
              Greet(h);
            } else {
              ended := true;
            }
          }
        case InitCompression =>
          state := Authenticated;
          ReadAuthenticatedPacket(p, h);
        case Authenticated =>
          ReadAuthenticatedPacket(p, h);
      }
    }

    method ChannelOpenGeneric() returns (ok: bool)
      requires !ended
      modifies this
      ensures View() == Opened(old(View())) && (ok <==> channels == old(channels) + 1)
    {
      ok := state.InitCompression? || state.Authenticated?;
      if ok {
        channels := channels + 1;
        write := write + [OpenRequest];
      }
    }
  }

  // ---------------------------------------------------------------------
  // Connections
  // ---------------------------------------------------------------------

  datatype Event = Received(packet: Packet, answers: Answers) | OpenChannel | Rekeyed

  function Start(config: Config): Server {
    Server(config, WaitingService, "", 0, [], 0, false)
  }

  /** A rekey replaces keys and leaves the authentication state alone. */
  function Next(s: Server, e: Event): Server {
    match e
    case Received(p, h) => Processed(s, p, h)
    case OpenChannel => Opened(s)
    case Rekeyed => s
  }

  /** Events in order, the last one last. */
  function Run(s: Server, events: seq<Event>): Server {
    if events == [] then s else Next(Run(s, events[..|events| - 1]), events[|events| - 1])
  }

  function Rank(s: State): nat {
    match s
    case WaitingService => 0
    case WaitingRequest(_) => 1
    case InitCompression => 2
    case Authenticated => 3
  }

  predicate LoggedIn(s: Server) {
    Rank(s.state) >= 2
  }

  predicate AboutChannels(r: Reply) {
    r.OpenConfirmation? || r.OpenFailure? || r.OpenRequest?
  }

  // ---------------------------------------------------------------------
  // When a request is granted
  // ---------------------------------------------------------------------

  /** Which user the handler is asked to judge by the answer `verdict`, if it
      is asked at all. */
  function Subject(s: Server, auth: AuthRequest, p: Packet, h: Answers): Option<string> {
    if p.InfoResponse? then
      if auth.current.Interactive? && p.wellFormed then Some(s.user) else None
    else if !p.UserAuth? || p.fields.None? || p.fields.value.1 != CONNECTION then None
    else
      var user := p.fields.value.0;
      match p.fields.value.2
      case PasswordRequest(wellFormed) => if wellFormed then Some(user) else None
      case NoneRequest => Some(user)
      case InteractiveRequest(submethods) => if submethods.Some? then Some(user) else None
      case OtherRequest => None
      case KeyRequest(isReal, _, _, parsed, signatureParses) =>
        if isReal && UsableKey(parsed) && signatureParses && h.signatureValid
           && (PreviouslyOffered(s, auth, user) || (s.user == "" && h.offered.Accept?))
        then Some(user) else None
  }

  /** The event makes the handler accept a user. */
  predicate Grants(s: Server, e: Event) {
    && !s.ended && s.state.WaitingRequest? && e.Received?
    && Subject(s, s.state.auth, e.packet, e.answers).Some? && e.answers.verdict.Accept?
  }

  function Successes(out: seq<Reply>): nat {
    if out == [] then 0 else Successes(out[..|out| - 1]) + (if out[|out| - 1].Success? then 1 else 0)
  }

  lemma SaidCounts(before: seq<Reply>, after: seq<Reply>)
    requires |after| == |before| + 1 && after[..|before|] == before
    ensures Successes(after) == Successes(before) + (if after[|before|].Success? then 1 else 0)
    ensures after == before + [after[|before|]]
  {
  }

  /** A request is judged to a login exactly if the handler accepts its subject. */
  predicate Judges(s: Server, auth: AuthRequest, p: Packet, h: Answers, t: Server) {
    && Rank(t.state) in {1, 2}
    && (Rank(t.state) == 2 <==> Subject(s, auth, p, h).Some? && h.verdict.Accept?)
  }

  lemma KeyAdvances(s: Server, auth: AuthRequest, user: string, r: Request, h: Answers)
    requires s.state == WaitingRequest(auth) && r.KeyRequest?
    ensures Judges(s, auth, UserAuth(Some((user, CONNECTION, r))), h, OnPublicKey(s, auth, user, r, h))
  {
  }

  lemma RequestAdvances(s: Server, auth: AuthRequest, p: Packet, h: Answers)
    requires s.state == WaitingRequest(auth) && p.UserAuth?
    ensures Judges(s, auth, p, h, OnUserAuth(s, auth, p, h))
  {
    if p.fields.Some? && p.fields.value.2.KeyRequest? {
      KeyAdvances(s, auth, p.fields.value.0, p.fields.value.2, h);
    }
  }

  /** The state only advances, and reaches login exactly when a user is accepted. */
  lemma StateAdvances(s: Server, e: Event)
    ensures var t := Next(s, e);
            && Rank(s.state) <= Rank(t.state) && (s.ended ==> t == s)
            && (!LoggedIn(s) && LoggedIn(t) <==> Grants(s, e))
            && (Grants(s, e) ==> t.state.InitCompression?)
  {
    if s.state.WaitingRequest? && e.Received? && e.packet.UserAuth? {
      RequestAdvances(s, s.state.auth, e.packet, e.answers);
    }
  }

  predicate IsAnswer(r: Reply) {
    r.Success? || r.Failure? || r.PkOk? || r.InfoRequest?
  }

  /** From `s` to `t` exactly one answer was said, a success only on login, and
      a rejection was counted exactly if it was said. */
  predicate Answered(s: Server, auth: AuthRequest, t: Server) {
    var n := |s.out|;
    && |t.out| == n + 1 && t.out[..n] == s.out && IsAnswer(t.out[n]) && t.channels == s.channels
    && (t.out[n].Success? <==> LoggedIn(t))
    && (t.state.WaitingRequest? ==> t.state.auth.rejections == auth.rejections + (if t.out[n].Failure? then 1 else 0))
  }

  /** Or the connection ended without a word, before any login. */
  predicate AnsweredOrEnded(s: Server, auth: AuthRequest, t: Server) {
    if t.ended && !LoggedIn(t) then t.out == s.out && t.channels == s.channels && t.state == s.state else Answered(s, auth, t)
  }

  lemma VerdictIsAnswered(s: Server, auth: AuthRequest, a: Answer, otherwise: seq<Method>)
    requires !s.ended && !LoggedIn(s)
    ensures AnsweredOrEnded(s, auth, Judged(s, auth, a, otherwise)) && AnsweredOrEnded(s, auth, Rejected(s, auth))
  {
  }

  lemma ReplyIsAnswered(s: Server, auth: AuthRequest, a: Answer)
    requires !s.ended && !LoggedIn(s)
    ensures AnsweredOrEnded(s, auth, Replied(s, auth, a))
  {
  }

  lemma KeyIsAnswered(s: Server, auth: AuthRequest, user: string, r: Request, h: Answers)
    requires !s.ended && !LoggedIn(s) && r.KeyRequest?
    ensures AnsweredOrEnded(s, auth, OnPublicKey(s, auth, user, r, h))
  {
    var t := s.(user := user);
    VerdictIsAnswered(s, auth, h.verdict, auth.methods);
    VerdictIsAnswered(t, auth, h.verdict, auth.methods);
    VerdictIsAnswered(t, auth, h.offered, auth.methods);
  }

  lemma RequestIsAnswered(s: Server, auth: AuthRequest, p: Packet, h: Answers)
    requires !s.ended && !LoggedIn(s) && p.UserAuth?
    ensures AnsweredOrEnded(s, auth, OnUserAuth(s, auth, p, h))
  {
    if p.fields.Some? {
      var (user, _, r) := p.fields.value;
      var t := s.(user := user);
      match r {
        case PasswordRequest(_) => VerdictIsAnswered(t, auth, h.verdict, Without(auth.methods, Password));
        case NoneRequest => VerdictIsAnswered(s, auth, h.verdict, Without(auth.methods, NoMethod));
        case KeyRequest(_, _, _, _, _) => KeyIsAnswered(s, auth, user, r, h);
        case InteractiveRequest(submethods) =>
          if submethods.Some? {
            ReplyIsAnswered(t, auth.(current := Interactive(submethods.value)), h.verdict);
          }
        case OtherRequest => VerdictIsAnswered(s, auth, h.verdict, auth.methods);
      }
    }
  }

  /** Every request or response that does not end the connection gets exactly
      one answer, and a rejection is counted exactly when it is said. */
  lemma OneAnswerEach(s: Server, p: Packet, h: Answers)
    requires !s.ended && s.state.WaitingRequest? && (p.UserAuth? || p.InfoResponse?)
    ensures AnsweredOrEnded(s, s.state.auth, Processed(s, p, h))
  {
    if p.UserAuth? {
      RequestIsAnswered(s, s.state.auth, p, h);
    } else {
      VerdictIsAnswered(s, s.state.auth, h.verdict, s.state.auth.methods);
      ReplyIsAnswered(s, s.state.auth, h.verdict);
    }
  }

  /** What one event adds to the conversation: at most two replies, the first
      of them USERAUTH_SUCCESS exactly when a user is accepted. */
  lemma Speaks(s: Server, e: Event)
    ensures var t, n := Next(s, e), |s.out|;
            && n <= |t.out| <= n + 2 && t.out[..n] == s.out
            && (Grants(s, e) ==> |t.out| == n + 1)
            && (|t.out| > n ==> (t.out[n].Success? <==> Grants(s, e)) && (AboutChannels(t.out[n]) ==> LoggedIn(s)))
            && (|t.out| == n + 2 ==> t.out[n + 1].Banner?)
            && (t.channels > s.channels ==> LoggedIn(s))
  {
    StateAdvances(s, e);
    if s.state.WaitingRequest? && !s.ended && e.Received? && (e.packet.UserAuth? || e.packet.InfoResponse?) {
      OneAnswerEach(s, e.packet, e.answers);
    } else {
      SpeaksElsewhere(s, e);
    }
  }

  lemma SpeaksElsewhere(s: Server, e: Event)
    requires s.ended || !e.Received? || !s.state.WaitingRequest? || (!e.packet.UserAuth? && !e.packet.InfoResponse?)
    ensures var t, n := Next(s, e), |s.out|;
            && n <= |t.out| <= n + 2 && t.out[..n] == s.out
            && (|t.out| > n ==> !t.out[n].Success? && (AboutChannels(t.out[n]) ==> LoggedIn(s)))
            && (|t.out| == n + 2 ==> t.out[n + 1].Banner?)
            && (t.channels > s.channels ==> LoggedIn(s))
  {
  }

  /** USERAUTH_SUCCESS is said exactly when a user is accepted, which is exactly
      when the login state is reached. */
  lemma GrantedExactly(s: Server, e: Event)
    ensures var t := Next(s, e);
            && (!LoggedIn(s) && LoggedIn(t) <==> Grants(s, e))
            && (Grants(s, e) ==> t.out == s.out + [Success])
            && Successes(t.out) == Successes(s.out) + (if Grants(s, e) then 1 else 0)
  {
    StateAdvances(s, e);
    Speaks(s, e);
    var t, n := Next(s, e), |s.out|;
    if |t.out| == n {
      assert t.out == s.out;
    } else if |t.out| == n + 1 {
      SaidCounts(s.out, t.out);
    } else {
      SaidCounts(s.out, t.out[..n + 1]);
      SaidCounts(t.out[..n + 1], t.out);
    }
  }

  // ---------------------------------------------------------------------
  // Whole connections
  // ---------------------------------------------------------------------

  lemma {:induction false} RunOfPrefix(s: Server, events: seq<Event>, i: nat)
    requires i <= |events|
    ensures Rank(Run(s, events[..i]).state) <= Rank(Run(s, events).state)
    ensures Run(s, events[..i]).ended ==> Run(s, events) == Run(s, events[..i])
  {
    if i == |events| {
      assert events[..i] == events;
    } else {
      var before := events[..|events| - 1];
      RunOfPrefix(s, before, i);
      assert before[..i] == events[..i];
      StateAdvances(Run(s, before), events[|events| - 1]);
    }
  }

  /** USERAUTH_SUCCESS is said exactly once, and exactly by a connection that
      has left the authentication states, whatever it receives and however
      often it rekeys. */
  lemma {:induction false} SuccessExactlyOnce(config: Config, events: seq<Event>)
    ensures var s := Run(Start(config), events);
            Successes(s.out) == if LoggedIn(s) then 1 else 0
  {
    if events != [] {
      var before := events[..|events| - 1];
      SuccessExactlyOnce(config, before);
      GrantedExactly(Run(Start(config), before), events[|events| - 1]);
    }
  }

  /** The user and method of the last request that was read. */
  function LastRequest(events: seq<Event>): Option<(string, Request)> {
    if events == [] then None else
      var e := events[|events| - 1];
      if e.Received? && e.packet.UserAuth? && e.packet.fields.Some?
      then Some((e.packet.fields.value.0, e.packet.fields.value.2))
      else LastRequest(events[..|events| - 1])
  }

  /** The event makes the server ask the handler about an offered key: on a
      query, or on a signature while nobody is recorded. */
  predicate AsksAboutOffer(s: Server, e: Event) {
    && !s.ended && s.state.WaitingRequest? && e.Received? && e.packet.UserAuth? && e.packet.fields.Some?
    && e.packet.fields.value.1 == CONNECTION
    && match e.packet.fields.value.2
       case KeyRequest(isReal, _, _, parsed, signatureParses) =>
         UsableKey(parsed) &&
         (isReal ==> signatureParses && s.user == "" && !PreviouslyOffered(s, s.state.auth, e.packet.fields.value.0))
       case _ => false
  }

  predicate AcceptsOffer(s: Server, e: Event) {
    AsksAboutOffer(s, e) && e.answers.offered.Accept?
  }

  /** The user and the key of the last offer that the handler accepted. */
  function LastOffer(config: Config, events: seq<Event>): Option<(string, seq<byte>)> {
    if events == [] then None else
      var before, e := events[..|events| - 1], events[|events| - 1];
      if AcceptsOffer(Run(Start(config), before), e) then Some((e.packet.fields.value.0, e.packet.fields.value.2.key))
      else LastOffer(config, before)
  }

  /** A request in progress belongs to the user of the last request, and a key
      in progress is that of the last accepted offer. */
  ghost predicate Attributed(s: Server, config: Config, events: seq<Event>) {
    s.state.WaitingRequest? && !s.ended && !s.state.auth.current.Nothing? ==>
      && LastRequest(events).Some? && LastRequest(events).value.0 == s.user
      && (s.state.auth.current.Interactive? ==> LastRequest(events).value.1.InteractiveRequest?)
      && (s.state.auth.current.Offered? ==> LastOffer(config, events) == Some((s.user, s.state.auth.current.key)))
  }

  /** An event other than a request leaves the request in progress, or forgets it. */
  lemma OthersKeepRequest(s: Server, e: Event)
    requires !(e.Received? && e.packet.UserAuth?)
    ensures var t := Next(s, e);
            t.state.WaitingRequest? && !t.ended && !t.state.auth.current.Nothing? ==>
              && s.state.WaitingRequest? && !s.ended && s.user == t.user
              && s.state.auth.current == t.state.auth.current
  {
  }

  /** What a request leaves in progress is its own, or the standing offer. */
  lemma RequestIsInProgress(s: Server, e: Event)
    requires e.Received? && e.packet.UserAuth?
    ensures var t := Next(s, e);
            t.state.WaitingRequest? && !t.ended && !t.state.auth.current.Nothing? ==>
              && e.packet.fields.Some? && e.packet.fields.value.0 == t.user
              && var r := e.packet.fields.value.2;
                 && (t.state.auth.current.Interactive? ==> r.InteractiveRequest?)
                 && (t.state.auth.current.Offered? ==> AcceptsOffer(s, e) && r.key == t.state.auth.current.key)
  {
  }

  lemma {:induction false} RunIsAttributed(config: Config, events: seq<Event>)
    ensures Attributed(Run(Start(config), events), config, events)
  {
    if events != [] {
      var before, e := events[..|events| - 1], events[|events| - 1];
      RunIsAttributed(config, before);
      if e.Received? && e.packet.UserAuth? {
        RequestIsInProgress(Run(Start(config), before), e);
      } else {
        OthersKeepRequest(Run(Start(config), before), e);
      }
    }
  }

  /** How a connection that is logged in got there: at one event the handler
      accepted the user of the last request. By password, none or
      keyboard-interactive that alone; by public key only after the key's
      signature verified, the last offer the handler accepted, then or before,
      being one for the same user. */
  lemma {:induction false} LoginHasACause(config: Config, events: seq<Event>)
    requires LoggedIn(Run(Start(config), events))
    ensures exists i :: 0 <= i < |events| && Cause(config, events, i)
  {
    var before := events[..|events| - 1];
    if LoggedIn(Run(Start(config), before)) {
      LoginHasACause(config, before);
      var i :| 0 <= i < |before| && Cause(config, before, i);
      assert before[..i] == events[..i] && before[..i + 1] == events[..i + 1] && before[i] == events[i];
      assert Cause(config, events, i);
    } else {
      GrantIsCause(config, events);
      assert Cause(config, events, |events| - 1);
    }
  }

  lemma GrantIsCause(config: Config, events: seq<Event>)
    requires events != [] && LoggedIn(Run(Start(config), events)) && !LoggedIn(Run(Start(config), events[..|events| - 1]))
    ensures Cause(config, events, |events| - 1)
  {
    var before, e := events[..|events| - 1], events[|events| - 1];
    StateAdvances(Run(Start(config), before), e);
    RunIsAttributed(config, before);
    assert events[..|events|] == events;
  }

  ghost predicate Cause(config: Config, events: seq<Event>, i: nat)
    requires i < |events|
  {
    var s, e, so := Run(Start(config), events[..i]), events[i], events[..i + 1];
    && !LoggedIn(s) && LoggedIn(Run(Start(config), so))
    && e.Received? && e.answers.verdict.Accept? && s.state.WaitingRequest?
    && LastRequest(so).Some? && Subject(s, s.state.auth, e.packet, e.answers) == Some(LastRequest(so).value.0)
    && (e.packet.InfoResponse? ==> LastRequest(so).value.1.InteractiveRequest?)
    && (e.packet.UserAuth? && LastRequest(so).value.1.KeyRequest? ==>
          && e.answers.signatureValid
          && LastOffer(config, so).Some? && LastOffer(config, so).value.0 == LastRequest(so).value.0)
  }

  /** Only replies that do not speak of channels, or a success before the
      first that does. */
  ghost predicate SuccessFirst(s: Server) {
    && (s.channels > 0 ==> LoggedIn(s))
    && forall i :: 0 <= i < |s.out| && AboutChannels(s.out[i]) ==> LoggedIn(s) && Successes(s.out[..i]) == 1
  }

  lemma SuccessFirstKept(s: Server, t: Server)
    requires SuccessFirst(s) && Successes(s.out) == (if LoggedIn(s) then 1 else 0)
    requires (LoggedIn(s) ==> LoggedIn(t)) && (t.channels > 0 ==> LoggedIn(t))
    requires |s.out| <= |t.out| <= |s.out| + 2 && t.out[..|s.out|] == s.out
    requires |t.out| > |s.out| && AboutChannels(t.out[|s.out|]) ==> LoggedIn(s)
    requires |t.out| == |s.out| + 2 ==> t.out[|s.out| + 1].Banner?
    ensures SuccessFirst(t)
  {
    forall i | 0 <= i < |t.out| && AboutChannels(t.out[i])
      ensures LoggedIn(t) && Successes(t.out[..i]) == 1
    {
      if i < |s.out| {
        assert t.out[i] == s.out[i] && t.out[..i] == s.out[..i];
      } else {
        assert t.out[..i] == s.out;
      }
    }
  }

  /** No channel, and no word about one, before USERAUTH_SUCCESS. */
  lemma {:induction false} NoChannelBeforeSuccess(config: Config, events: seq<Event>)
    ensures SuccessFirst(Run(Start(config), events))
  {
    if events != [] {
      var before := events[..|events| - 1];
      NoChannelBeforeSuccess(config, before);
      SuccessExactlyOnce(config, before);
      var s, e := Run(Start(config), before), events[|events| - 1];
      StateAdvances(s, e);
      Speaks(s, e);
      SuccessFirstKept(s, Next(s, e));
    }
  }

  // ---------------------------------------------------------------------
  // Single requests
  // ---------------------------------------------------------------------

  /** After a login the recorded user is the accepted one, unless the method
      was `none`, which leaves whatever an earlier request recorded. */
  lemma RecordedUserExactly(s: Server, e: Event)
    requires Grants(s, e)
    ensures var accepted := Subject(s, s.state.auth, e.packet, e.answers).value;
            Next(s, e).user == accepted
            <==> !(e.packet.UserAuth? && e.packet.fields.value.2.NoneRequest?) || s.user == accepted
  {
  }

  /** A handler that reports partial success has that reported to the client
      exactly for keyboard-interactive; password, none and public key requests
      always report a plain failure. */
  lemma PartialSuccessReportedExactly(s: Server, e: Event)
    requires !s.ended && s.state.WaitingRequest? && e.Received?
    requires Subject(s, s.state.auth, e.packet, e.answers).Some?
    requires e.answers.verdict.Reject? && e.answers.verdict.partialSuccess
    ensures var t := Next(s, e);
            && t.out[..|s.out|] == s.out && |t.out| == |s.out| + 1 && t.out[|s.out|].Failure?
            && (t.out[|s.out|].partialSuccess
                <==> e.packet.InfoResponse? || e.packet.fields.value.2.InteractiveRequest?)
  {
  }

  /** Three events after one another. */
  lemma RunOfThree(s: Server, e1: Event, e2: Event, e3: Event)
    ensures Run(s, [e1, e2, e3]) == Next(Next(Next(s, e1), e2), e3)
    ensures Run(s, [e1, e2]) == Next(Next(s, e1), e2)
  {
    assert [e1, e2, e3][..2] == [e1, e2] && [e1, e2][..1] == [e1] && [e1][..0] == [];
    assert Run(s, [e1]) == Next(Run(s, []), e1);
  }

  /** Answers of a handler that offers no banner and has no errors. */
  function Says(offered: Answer, verdict: Answer, signatureValid: bool): Answers {
    Answers(None, false, offered, verdict, signatureValid, false, false, false)
  }

  const REFUSE := Reject(None, false)

  function Asking(r: Request, h: Answers): Event {
    Received(UserAuth(Some(("u", CONNECTION, r))), h)
  }

  const HELLO := Received(ServiceRequest(Some(USERAUTH)), Says(REFUSE, REFUSE, false))

  /** After the service request, with nobody recorded and nothing offered. */
  lemma Greeting(config: Config)
    ensures Next(Start(config), HELLO)
            == Server(config, WaitingRequest(AuthRequest(config.methods, false, Nothing, 0)), "", 0, [ServiceAccept], 0, false)
  {
    assert [] + [ServiceAccept] == [ServiceAccept];
  }

  /** A login by `none` as the first request records nobody. */
  lemma NoneLogsNobodyIn(config: Config) returns (events: seq<Event>)
    ensures events == [HELLO, Asking(NoneRequest, Says(REFUSE, Accept, false))]
    ensures var s := Run(Start(config), events); LoggedIn(s) && s.out == [ServiceAccept, Success] && s.user == "" != "u"
  {
    var e := Asking(NoneRequest, Says(REFUSE, Accept, false));
    events := [HELLO, e];
    RunOfThree(Start(config), HELLO, e, e);
    Greeting(config);
    assert [ServiceAccept] + [Success] == [ServiceAccept, Success];
  }

  /** A password that the handler accepts as one of several factors is
      answered with a plain failure. */
  lemma PartialPasswordLooksWrong(config: Config) returns (events: seq<Event>)
    ensures events == [HELLO, Asking(PasswordRequest(true), Says(REFUSE, Reject(Some([PublicKey]), true), false))]
    ensures Run(Start(config), events).out == [ServiceAccept, Failure([PublicKey], false)]
  {
    var e := Asking(PasswordRequest(true), Says(REFUSE, Reject(Some([PublicKey]), true), false));
    events := [HELLO, e];
    RunOfThree(Start(config), HELLO, e, e);
    Greeting(config);
    assert [ServiceAccept] + [Failure([PublicKey], false)] == [ServiceAccept, Failure([PublicKey], false)];
  }

  // ---------------------------------------------------------------------
  // Signatures without an offer
  // ---------------------------------------------------------------------

  /** A well-formed signed request. */
  predicate Signs(e: Event) {
    && e.Received? && e.packet.UserAuth? && e.packet.fields.Some? && e.packet.fields.value.1 == CONNECTION
    && var r := e.packet.fields.value.2;
       r.KeyRequest? && r.isReal && r.signatureParses && UsableKey(r.parsed)
  }

  /** While some user is recorded and no offer stands, signed requests are
      rejected whatever the handler and the signature would say, and that
      does not change however many follow. */
  lemma {:induction false} SignedWithoutOfferStaysRejected(s: Server, events: seq<Event>)
    requires !s.ended && s.state.WaitingRequest? && s.user != "" && !s.state.auth.current.Offered?
    requires forall i :: 0 <= i < |events| ==> Signs(events[i])
    ensures var t := Run(s, events);
            && !t.ended && t.state.WaitingRequest? && t.user == s.user && !t.state.auth.current.Offered?
            && t.state.auth.rejections == s.state.auth.rejections + |events|
  {
    if events != [] {
      SignedWithoutOfferStaysRejected(s, events[..|events| - 1]);
    }
  }

  /** Nobody is recorded and no offer stands. */
  predicate Unclaimed(s: Server) {
    !s.ended && s.state.WaitingRequest? && s.user == "" && !s.state.auth.current.Offered?
  }

  /** A signed request that leaves nobody recorded: its key was accepted as an
      offer and its signature was good, but the handler turned it down in the
      end; or it named no user, and failed without an error. */
  predicate LeavesUnclaimed(e: Event)
    requires Signs(e)
  {
    var h := e.answers;
    if h.offered.Accept? && h.signatureValid then TurnsDown(h.verdict)
    else e.packet.fields.value.0 == "" && !h.offered.Fails?
  }

  lemma SignedOnceUnclaimed(s: Server, e: Event)
    requires Signs(e) && Unclaimed(s)
    ensures Unclaimed(Next(s, e)) <==> LeavesUnclaimed(e)
  {
  }

  /** Once someone is recorded, or authentication is over, that stays. */
  lemma SignedOnceClaimed(s: Server, e: Event)
    requires Signs(e) && !Unclaimed(s) && (s.state.WaitingRequest? ==> !s.state.auth.current.Offered?)
    ensures !Unclaimed(Next(s, e)) && !AsksAboutOffer(s, e)
  {
  }

  lemma SignedStandsNoOffer(s: Server, e: Event)
    requires Signs(e) && (s.state.WaitingRequest? ==> !s.state.auth.current.Offered?)
    ensures var t := Next(s, e); t.state.WaitingRequest? ==> !t.state.auth.current.Offered?
  {
  }

  lemma {:induction false} UnclaimedExactly(s: Server, events: seq<Event>)
    requires Unclaimed(s) && forall i :: 0 <= i < |events| ==> Signs(events[i])
    ensures var t := Run(s, events);
            && (Unclaimed(t) <==> forall i :: 0 <= i < |events| ==> LeavesUnclaimed(events[i]))
            && (t.state.WaitingRequest? ==> !t.state.auth.current.Offered?)
  {
    if events != [] {
      var before, e := events[..|events| - 1], events[|events| - 1];
      var t := Run(s, before);
      UnclaimedExactly(s, before);
      SignedStandsNoOffer(t, e);
      if Unclaimed(t) {
        SignedOnceUnclaimed(t, e);
        assert forall i :: 0 <= i < |before| ==> LeavesUnclaimed(before[i]) && before[i] == events[i];
      } else {
        SignedOnceClaimed(t, e);
        var i :| 0 <= i < |before| && !LeavesUnclaimed(before[i]);
        assert events[i] == before[i];
      }
    }
  }

  /** Exactly which keys a client that signs without asking first gets
      considered: the handler is asked about the key of a signed request if and
      only if every one before it was accepted as an offer, carried a good
      signature and was turned down in the end, or named no user and failed. */
  lemma UnaskedKeyConsideredExactly(s: Server, events: seq<Event>)
    requires Unclaimed(s) && events != [] && forall i :: 0 <= i < |events| ==> Signs(events[i])
    ensures AsksAboutOffer(Run(s, events[..|events| - 1]), events[|events| - 1])
            <==> forall i :: 0 <= i < |events| - 1 ==> LeavesUnclaimed(events[i])
  {
    var before, e := events[..|events| - 1], events[|events| - 1];
    var t := Run(s, before);
    UnclaimedExactly(s, before);
    assert forall i :: 0 <= i < |before| ==> before[i] == events[i];
    if !Unclaimed(t) {
      SignedOnceClaimed(t, e);
    }
  }

  function SigningWith(key: byte, h: Answers): Event {
    Asking(KeyRequest(true, "a", [key], Key, true), h)
  }

  /** The first key is refused as an offer; the second, which the handler would
      accept and whose signature is good, is never considered. */
  lemma SecondKeyIsIgnored(config: Config) returns (events: seq<Event>)
    ensures events == [HELLO, SigningWith(1, Says(REFUSE, REFUSE, true)), SigningWith(2, Says(Accept, Accept, true))]
    ensures !AsksAboutOffer(Run(Start(config), events[..2]), events[2])
    ensures Run(Start(config), events).state.WaitingRequest?
  {
    var first, second := SigningWith(1, Says(REFUSE, REFUSE, true)), SigningWith(2, Says(Accept, Accept, true));
    events := [HELLO, first, second];
    Greeting(config);
    RunOfThree(Start(config), HELLO, first, second);
    assert events[..2] == [HELLO, first];
  }

  /** The first key is turned down only after its signature was verified; the
      second is considered and logs in. */
  lemma SecondKeyLogsIn(config: Config) returns (events: seq<Event>)
    ensures events == [HELLO, SigningWith(1, Says(Accept, REFUSE, true)), SigningWith(2, Says(Accept, Accept, true))]
    ensures AsksAboutOffer(Run(Start(config), events[..2]), events[2])
    ensures LoggedIn(Run(Start(config), events))
  {
    var first, second := SigningWith(1, Says(Accept, REFUSE, true)), SigningWith(2, Says(Accept, Accept, true));
    events := [HELLO, first, second];
    Greeting(config);
    RunOfThree(Start(config), HELLO, first, second);
    assert events[..2] == [HELLO, first];
  }

  // ---------------------------------------------------------------------
  // Attempts
  // ---------------------------------------------------------------------

  /** A well-formed request or response that the handler, or the verifier,
      turns down: whatever the method. */
  predicate Refusable(e: Event) {
    && e.Received?
    && var h := e.answers;
       match e.packet
       case InfoResponse(wellFormed) => wellFormed && h.verdict.Reject?
       case UserAuth(Some((_, service, r))) => service == CONNECTION && RequestRefusable(r, h)
       case _ => false
  }

  predicate RequestRefusable(r: Request, h: Answers) {
    match r
    case PasswordRequest(wellFormed) => wellFormed && TurnsDown(h.verdict)
    case NoneRequest => TurnsDown(h.verdict)
    case InteractiveRequest(submethods) => submethods.Some? && h.verdict.Reject?
    case OtherRequest => true
    case KeyRequest(isReal, _, _, parsed, signatureParses) =>
      && !parsed.Unparsable?
      && if isReal then signatureParses && !h.offered.Fails? && (!h.signatureValid || TurnsDown(h.verdict))
         else TurnsDown(h.offered)
  }

  predicate TurnsDown(a: Answer) {
    !a.Accept? && !a.Fails?
  }

  /** A keyboard-interactive request or response that the handler answers with
      another round of prompts. */
  predicate Prompted(e: Event) {
    && e.Received? && e.answers.verdict.Partial?
    && match e.packet
       case InfoResponse(wellFormed) => wellFormed
       case UserAuth(Some((_, service, InteractiveRequest(Some(_))))) => service == CONNECTION
       case _ => false
  }

  function Requests(events: seq<Event>): nat {
    if events == [] then 0 else
      var e := events[|events| - 1];
      Requests(events[..|events| - 1]) + (if e.Received? && e.packet.UserAuth? then 1 else 0)
  }

  function Failures(out: seq<Reply>): nat {
    if out == [] then 0 else Failures(out[..|out| - 1]) + (if out[|out| - 1].Failure? then 1 else 0)
  }

  lemma FailureSaid(out: seq<Reply>, r: Reply)
    ensures Failures(out + [r]) == Failures(out) + (if r.Failure? then 1 else 0)
  {
    assert (out + [r])[..|out|] == out;
  }

  lemma TurnedDownOnce(s: Server, e: Event)
    requires !s.ended && s.state.WaitingRequest? && (Refusable(e) || Prompted(e))
    ensures var t := Next(s, e);
            && !t.ended && t.state.WaitingRequest?
            && t.attempts == s.attempts + (if e.packet.UserAuth? then 1 else 0)
            && |t.out| == |s.out| + 1
            && t.state.auth.rejections == s.state.auth.rejections + (Failures(t.out) - Failures(s.out))
            && (Refusable(e) ==> t.state.auth.rejections == s.state.auth.rejections + 1)
  {
    var t := Next(s, e);
    TurnedDownIsSaid(s, e);
    assert t.out == s.out + [t.out[|s.out|]];
    FailureSaid(s.out, t.out[|s.out|]);
  }

  lemma TurnedDownIsSaid(s: Server, e: Event)
    requires !s.ended && s.state.WaitingRequest? && (Refusable(e) || Prompted(e))
    ensures var t := Next(s, e);
            && !t.ended && t.state.WaitingRequest?
            && t.attempts == s.attempts + (if e.packet.UserAuth? then 1 else 0)
            && |t.out| == |s.out| + 1 && t.out[..|s.out|] == s.out
            && (t.out[|s.out|].Failure? ==> t.state.auth.rejections == s.state.auth.rejections + 1)
            && (!t.out[|s.out|].Failure? ==> t.state.auth.rejections == s.state.auth.rejections && !Refusable(e))
  {
    if e.packet.UserAuth? {
      var (user, _, r) := e.packet.fields.value;
      if r.KeyRequest? {
        KeyTurnedDown(s, s.state.auth, user, r, e.answers);
      }
    }
  }

  lemma KeyTurnedDown(s: Server, auth: AuthRequest, user: string, r: Request, h: Answers)
    requires !s.ended && s.state.WaitingRequest? && r.KeyRequest? && RequestRefusable(r, h)
    ensures var t := OnPublicKey(s, auth, user, r, h);
            && !t.ended && t.state.WaitingRequest? && t.attempts == s.attempts
            && |t.out| == |s.out| + 1 && t.out[..|s.out|] == s.out && t.out[|s.out|].Failure?
            && t.state.auth.rejections == auth.rejections + 1
  {
  }

  /** No number of refused requests and responses, of any methods and in any
      order, with any rounds of prompts between them, ends the connection: wrong
      passwords, typed or sent, refused keys and bad signatures included. Each
      is answered, and counted exactly if the answer is a failure. */
  lemma {:induction false} RejectionsNeverEndIt(s: Server, events: seq<Event>)
    requires !s.ended && s.state.WaitingRequest?
    requires forall i :: 0 <= i < |events| ==> Refusable(events[i]) || Prompted(events[i])
    ensures var t := Run(s, events);
            && !t.ended && t.state.WaitingRequest? && t.attempts == s.attempts + Requests(events)
            && |t.out| == |s.out| + |events|
            && t.state.auth.rejections == s.state.auth.rejections + (Failures(t.out) - Failures(s.out))
            && ((forall i :: 0 <= i < |events| ==> Refusable(events[i])) ==>
                  t.state.auth.rejections == s.state.auth.rejections + |events|)
  {
    if events != [] {
      var before := events[..|events| - 1];
      assert forall i :: 0 <= i < |before| ==> before[i] == events[i];
      RejectionsNeverEndIt(s, before);
      TurnedDownOnce(Run(s, before), events[|events| - 1]);
    }
  }

  predicate KeyEnds(s: Server, auth: AuthRequest, user: string, r: Request, h: Answers)
    requires r.KeyRequest?
  {
    || r.parsed.Unparsable?
    || (UsableKey(r.parsed) &&
        if !r.isReal then h.offered.Fails?
        else
          || !r.signatureParses
          || (if PreviouslyOffered(s, auth, user) then h.signatureValid && h.verdict.Fails?
              else s.user == "" && (h.offered.Fails? || (h.offered.Accept? && h.signatureValid && h.verdict.Fails?))))
  }

  predicate RequestEnds(s: Server, auth: AuthRequest, user: string, r: Request, h: Answers) {
    match r
    case PasswordRequest(wellFormed) => !wellFormed || h.verdict.Fails?
    case NoneRequest => h.verdict.Fails?
    case InteractiveRequest(submethods) => submethods.None? || h.verdict.UnsupportedMethod? || h.verdict.Fails?
    case OtherRequest => false
    case KeyRequest(_, _, _, _, _) => KeyEnds(s, auth, user, r, h)
  }

  /** What ends a connection: a field that does not decode, another service, a
      key that cannot be parsed, an answer without meaning for keyboard-interactive,
      or an error of the handler. */
  predicate Ends(s: Server, e: Event) {
    e.Received? &&
    var p, h := e.packet, e.answers;
    match s.state
    case WaitingService => p.ServiceRequest? && (p.name.None? || (p.name.value == USERAUTH && h.bannerFails))
    case WaitingRequest(auth) =>
      || (Grants(s, e) && h.greetingFails)
      || (p.UserAuth? && (p.fields.None? || p.fields.value.1 != CONNECTION
                          || RequestEnds(s, auth, p.fields.value.0, p.fields.value.2, h)))
      || (p.InfoResponse? && auth.current.Interactive?
          && (!p.wellFormed || h.verdict.UnsupportedMethod? || h.verdict.Fails?))
    case _ => p.ChannelOpen? && (p.supported.None? || (p.supported.value && h.openFails))
  }

  lemma KeyEndsExactly(s: Server, auth: AuthRequest, user: string, r: Request, h: Answers)
    requires !s.ended && r.KeyRequest?
    ensures OnPublicKey(s, auth, user, r, h).ended <==> KeyEnds(s, auth, user, r, h)
  {
  }

  lemma RequestEndsExactly(s: Server, auth: AuthRequest, user: string, r: Request, h: Answers)
    requires !s.ended
    ensures OnRequest(s, auth, user, r, h).ended <==> RequestEnds(s, auth, user, r, h)
  {
    if r.KeyRequest? {
      KeyEndsExactly(s, auth, user, r, h);
    }
  }

  /** Exactly what ends a connection; neither the attempts made nor the maximum
      configured is among it. */
  lemma EndsExactly(s: Server, e: Event)
    ensures Next(s, e).ended <==> s.ended || Ends(s, e)
  {
    if s.state.WaitingRequest? && !s.ended && e.Received? && e.packet.UserAuth? && e.packet.fields.Some? {
      RequestEndsExactly(s, s.state.auth, e.packet.fields.value.0, e.packet.fields.value.2, e.answers);
    }
  }

  /** A connection without its counts and without the maximum configured. */
  function Uncounted(s: Server): Server {
    s.(config := s.config.(maxAttempts := 0), attempts := 0,
       state := if s.state.WaitingRequest? then WaitingRequest(s.state.auth.(rejections := 0)) else s.state)
  }

  function Cleared(auth: AuthRequest): AuthRequest {
    auth.(rejections := 0)
  }

  lemma VerdictIgnoresCounts(s: Server, auth: AuthRequest, a: Answer, otherwise: seq<Method>)
    ensures Uncounted(Judged(s, auth, a, otherwise)) == Uncounted(Judged(Uncounted(s), Cleared(auth), a, otherwise))
    ensures Uncounted(Rejected(s, auth)) == Uncounted(Rejected(Uncounted(s), Cleared(auth)))
    ensures Uncounted(Replied(s, auth, a)) == Uncounted(Replied(Uncounted(s), Cleared(auth), a))
  {
  }

  lemma SignedIgnoresCounts(s: Server, auth: AuthRequest, h: Answers)
    ensures Uncounted(OnSigned(s, auth, h)) == Uncounted(OnSigned(Uncounted(s), Cleared(auth), h))
  {
    VerdictIgnoresCounts(s, auth, h.verdict, auth.methods);
  }

  lemma RealKeyIgnoresCounts(s: Server, auth: AuthRequest, user: string, h: Answers)
    ensures Uncounted(OnRealKey(s, auth, user, h)) == Uncounted(OnRealKey(Uncounted(s), Cleared(auth), user, h))
  {
    var t := s.(user := user);
    assert Uncounted(s).(user := user) == Uncounted(t);
    SignedIgnoresCounts(s, auth, h);
    SignedIgnoresCounts(t, auth, h);
    VerdictIgnoresCounts(s, auth, h.verdict, auth.methods);
    VerdictIgnoresCounts(t, auth, h.verdict, auth.methods);
  }

  lemma KeyIgnoresCounts(s: Server, auth: AuthRequest, user: string, r: Request, h: Answers)
    requires r.KeyRequest?
    ensures Uncounted(OnPublicKey(s, auth, user, r, h)) == Uncounted(OnPublicKey(Uncounted(s), Cleared(auth), user, r, h))
  {
    VerdictIgnoresCounts(s, auth, h.verdict, auth.methods);
    VerdictIgnoresCounts(s.(user := user), auth, h.offered, auth.methods);
    RealKeyIgnoresCounts(s, auth, user, h);
  }

  lemma RequestIgnoresCounts(s: Server, auth: AuthRequest, user: string, r: Request, h: Answers)
    ensures Uncounted(OnRequest(s, auth, user, r, h)) == Uncounted(OnRequest(Uncounted(s), Cleared(auth), user, r, h))
  {
    var t := s.(user := user);
    match r {
      case PasswordRequest(_) => VerdictIgnoresCounts(t, auth, h.verdict, Without(auth.methods, Password));
      case NoneRequest => VerdictIgnoresCounts(s, auth, h.verdict, Without(auth.methods, NoMethod));
      case KeyRequest(_, _, _, _, _) => KeyIgnoresCounts(s, auth, user, r, h);
      case InteractiveRequest(submethods) =>
        if submethods.Some? {
          VerdictIgnoresCounts(t, auth.(current := Interactive(submethods.value)), h.verdict, []);
        }
      case OtherRequest => VerdictIgnoresCounts(s, auth, h.verdict, []);
    }
  }

  lemma GreetingIgnoresCounts(t: Server, u: Server, h: Answers)
    requires Uncounted(t) == Uncounted(u)
    ensures Uncounted(Greeted(t, h)) == Uncounted(Greeted(u, h))
  {
    assert t.state.InitCompression? <==> u.state.InitCompression?;
  }

  lemma UserAuthIgnoresCounts(s: Server, auth: AuthRequest, p: Packet, h: Answers)
    requires p.UserAuth?
    ensures Uncounted(OnUserAuth(s, auth, p, h)) == Uncounted(OnUserAuth(Uncounted(s), Cleared(auth), p, h))
  {
    if p.fields.Some? {
      var (user, _, r) := p.fields.value;
      var t, u := OnRequest(s, auth, user, r, h), OnRequest(Uncounted(s), Cleared(auth), user, r, h);
      RequestIgnoresCounts(s, auth, user, r, h);
      GreetingIgnoresCounts(t.(attempts := t.attempts + 1), u.(attempts := u.attempts + 1), h);
    }
  }

  lemma ResponseIgnoresCounts(s: Server, auth: AuthRequest, p: Packet, h: Answers)
    requires p.InfoResponse? && !s.ended && s.state == WaitingRequest(auth)
    ensures Uncounted(Processed(s, p, h)) == Uncounted(Processed(Uncounted(s), p, h))
  {
    VerdictIgnoresCounts(s, auth, h.verdict, []);
    GreetingIgnoresCounts(Replied(s, auth, h.verdict), Replied(Uncounted(s), Cleared(auth), h.verdict), h);
  }

  lemma NextIgnoresCounts(s: Server, e: Event)
    ensures Uncounted(Next(s, e)) == Uncounted(Next(Uncounted(s), e))
  {
    if s.state.WaitingRequest? && e.Received? && !s.ended {
      if e.packet.UserAuth? {
        UserAuthIgnoresCounts(s, s.state.auth, e.packet, e.answers);
      } else if e.packet.InfoResponse? {
        ResponseIgnoresCounts(s, s.state.auth, e.packet, e.answers);
      }
    }
  }

  /** The attempts and rejections counted and the maximum configured influence
      nothing in any run: connections that differ only in them say the same,
      end at the same event and log in alike. */
  lemma {:induction false} CountsNeverMatter(s: Server, t: Server, events: seq<Event>)
    requires Uncounted(s) == Uncounted(t)
    ensures Uncounted(Run(s, events)) == Uncounted(Run(t, events))
  {
    if events != [] {
      var before, e := events[..|events| - 1], events[|events| - 1];
      CountsNeverMatter(s, t, before);
      NextIgnoresCounts(Run(s, before), e);
      NextIgnoresCounts(Run(t, before), e);
    }
  }

  // ---------------------------------------------------------------------
  // The key that logs in
  // ---------------------------------------------------------------------

  /** When a signed request logs a user in, its key is that of the last offer
      the handler accepted exactly if no earlier offer was standing, so that the
      handler was asked about this key now, or the standing offer is this key. */
  lemma SignedKeyIsOfferedKeyExactly(config: Config, events: seq<Event>)
    requires events != []
    requires Grants(Run(Start(config), events[..|events| - 1]), events[|events| - 1])
    requires var p := events[|events| - 1].packet; p.UserAuth? && p.fields.value.2.KeyRequest?
    ensures var s := Run(Start(config), events[..|events| - 1]);
            var (user, _, r) := events[|events| - 1].packet.fields.value;
            LastOffer(config, events) == Some((user, r.key))
            <==> !PreviouslyOffered(s, s.state.auth, user) || s.state.auth.current.key == r.key
  {
    RunIsAttributed(config, events[..|events| - 1]);
  }

  /** The handler accepted this key as an offer of this user at some event. */
  ghost predicate EverAccepted(config: Config, events: seq<Event>, user: string, key: seq<byte>) {
    exists i :: 0 <= i < |events| && AcceptsOffer(Run(Start(config), events[..i]), events[i])
                && events[i].packet.fields.value.0 == user && events[i].packet.fields.value.2.key == key
  }

  /** And it can be another one: the handler accepts key 1, refuses key 2, and a
      signature by key 2 logs in. */
  lemma OtherKeyLogsIn(config: Config) returns (events: seq<Event>)
    ensures LoggedIn(Run(Start(config), events)) && !EverAccepted(config, events, "u", [2])
    ensures |events| == 3 && Grants(Run(Start(config), events[..2]), events[2])
    ensures events[2].packet == UserAuth(Some(("u", CONNECTION, KeyRequest(true, "a", [2], Key, true))))
    ensures events[2].answers.offered.Reject?
  {
    var query := Asking(KeyRequest(false, "a", [1], Key, false), Says(Accept, REFUSE, false));
    var signed := SigningWith(2, Says(REFUSE, Accept, true));
    events := [HELLO, query, signed];
    Greeting(config);
    RunOfThree(Start(config), HELLO, query, signed);
    assert events[..2] == [HELLO, query] && events[..1] == [HELLO] && events[..0] == [];
    assert Run(Start(config), [HELLO]) == Next(Run(Start(config), []), HELLO) by {
      assert [HELLO][..0] == [];
    }
    var s2 := Run(Start(config), [HELLO, query]);
    assert PreviouslyOffered(s2, s2.state.auth, "u");
  }
}
