/** What the server of module `Auth` says to single requests and to rounds of
    them: the methods it still offers, the prompts, the keys it confirms, and
    whom it records. */
module AuthReplies {
  import opened Wire
  import opened Auth

  // ---------------------------------------------------------------------
  // Greeting and channels
  // ---------------------------------------------------------------------

  /** The service is accepted first, then the banner is shown, and all the
      configured methods can be used. */
  lemma GreetingExactly(config: Config, h: Answers)
    ensures var t := Next(Start(config), Received(ServiceRequest(Some("ssh-userauth")), h));
            && t.user == "" && t.channels == 0
            && (h.bannerFails ==> t.ended && t.out == [] && t.state == WaitingService)
            && (!h.bannerFails ==>
                  && !t.ended && t.state == WaitingRequest(AuthRequest(config.methods, false, Nothing, 0))
                  && t.out == if h.banner.Some? then [ServiceAccept, Banner(h.banner.value)] else [ServiceAccept])
  {
    assert [] + [ServiceAccept] == [ServiceAccept];
  }

  /** A channel is opened exactly if its kind is supported and the handler
      allows it; any other kind, and a refusal, is told. */
  lemma ChannelAnsweredExactly(s: Server, h: Answers, supported: bool)
    requires !s.ended && LoggedIn(s) && !(supported && h.openFails)
    ensures var t := Next(s, Received(ChannelOpen(Some(supported)), h));
            && t.channels == s.channels + (if supported && h.allowed then 1 else 0)
            && t.out == s.out + [if supported && h.allowed then OpenConfirmation else OpenFailure]
            && t.state == Authenticated && !t.ended && t.user == s.user
  {
  }

  // ---------------------------------------------------------------------
  // Methods that are left
  // ---------------------------------------------------------------------

  /** Removing a method goes through the list in order. */
  lemma {:induction false} WithoutSplits(a: seq<Method>, b: seq<Method>, m: Method)
    ensures Without(a + b, m) == Without(a, m) + Without(b, m)
  {
    if a == [] {
      assert a + b == b;
    } else {
      WithoutSplits(a[1..], b, m);
      assert (a + b)[1..] == a[1..] + b;
      Regroup(if a[0] == m then [] else [a[0]], Without(a[1..], m), Without(b, m));
    }
  }

  lemma WithoutOne(n: Method, m: Method)
    ensures Without([n], m) == if n == m then [] else [n]
  {
    assert [n][1..] == [];
  }

  function ListIn(a: Answer): Option<seq<Method>> {
    if a.Reject? then a.methods else None
  }

  /** The answer of the handler that decides a request or response, if it is
      asked and the signature does not settle it. */
  function Decisive(s: Server, auth: AuthRequest, p: Packet, h: Answers): Option<Answer> {
    match p
    case InfoResponse(_) => if auth.current.Interactive? then Some(h.verdict) else None
    case UserAuth(Some((user, _, KeyRequest(isReal, _, _, parsed, _)))) =>
      if !UsableKey(parsed) then None
      else if !isReal then Some(h.offered)
      else if h.signatureValid && (PreviouslyOffered(s, auth, user) || (s.user == "" && h.offered.Accept?)) then Some(h.verdict)
      else None
    case UserAuth(Some((_, _, OtherRequest))) => None
    case _ => Some(h.verdict)
  }

  /** The method that a refusal strikes off the list. */
  function Struck(p: Packet): Option<Method> {
    match p
    case UserAuth(Some((_, _, PasswordRequest(_)))) => Some(Password)
    case UserAuth(Some((_, _, NoneRequest))) => Some(NoMethod)
    case _ => None
  }

  /** Which methods a refused request leaves: those the handler lists, else those
      that were left before, but for a password that was refused, or `none`. */
  predicate Leaves(before: seq<Method>, list: Option<seq<Method>>, struck: Option<Method>, after: seq<Method>) {
    match list
    case Some(methods) => after == methods
    case None => after == if struck.Some? then Without(before, struck.value) else before
  }

  /** Whether partial success is reported: what the handler says of a prompt, and
      no for anything else that it decides; a request that it does not decide
      repeats what was reported last. */
  function Partly(auth: AuthRequest, p: Packet, decisive: Option<Answer>): bool {
    match decisive
    case None => auth.partialSuccess
    case Some(a) => (p.InfoResponse? || (p.UserAuth? && p.fields.Some? && p.fields.value.2.InteractiveRequest?))
                    && a.Reject? && a.partialSuccess
  }

  /** A refused request or response is answered with the methods that are left,
      which are remembered, and nothing is in progress any more. */
  ghost predicate RefusedWith(s: Server, auth: AuthRequest, p: Packet, h: Answers, t: Server) {
    && !t.ended && t.state.WaitingRequest? && t.state.auth.current.Nothing?
    && |t.out| == |s.out| + 1 && t.out[..|s.out|] == s.out && t.out[|s.out|].Failure?
    && t.out[|s.out|].methods == t.state.auth.methods && t.out[|s.out|].partialSuccess == t.state.auth.partialSuccess
    && var decisive := Decisive(s, auth, p, h);
       && t.state.auth.partialSuccess == Partly(auth, p, decisive)
       && Leaves(auth.methods, if decisive.Some? then ListIn(decisive.value) else None, Struck(p), t.state.auth.methods)
  }

  lemma KeyRefusedWith(s: Server, auth: AuthRequest, user: string, r: Request, h: Answers)
    requires !s.ended && s.state == WaitingRequest(auth) && r.KeyRequest? && RequestRefusable(r, h)
    ensures RefusedWith(s, auth, UserAuth(Some((user, CONNECTION, r))), h, OnPublicKey(s, auth, user, r, h))
  {
  }

  lemma MethodsLeftExactly(s: Server, e: Event)
    requires !s.ended && s.state.WaitingRequest? && Refusable(e)
    ensures RefusedWith(s, s.state.auth, e.packet, e.answers, Next(s, e))
  {
    if e.packet.UserAuth? && e.packet.fields.value.2.KeyRequest? {
      KeyRefusedWith(s, s.state.auth, e.packet.fields.value.0, e.packet.fields.value.2, e.answers);
    }
  }

  /** So partial success is reported a second time, by a request for a method
      that does not exist. */
  lemma PartialSuccessIsRepeated(config: Config) returns (events: seq<Event>)
    ensures events == [HELLO, Asking(InteractiveRequest(Some("")), Says(REFUSE, Reject(None, true), false)),
                       Asking(OtherRequest, Says(REFUSE, REFUSE, false))]
    ensures Run(Start(config), events).out == [ServiceAccept, Failure(config.methods, true), Failure(config.methods, true)]
  {
    var first, second := Asking(InteractiveRequest(Some("")), Says(REFUSE, Reject(None, true), false)),
                         Asking(OtherRequest, Says(REFUSE, REFUSE, false));
    events := [HELLO, first, second];
    Greeting(config);
    RunOfThree(Start(config), HELLO, first, second);
    var failure := Failure(config.methods, true);
    assert [ServiceAccept] + [failure] + [failure] == [ServiceAccept, failure, failure];
  }

  /** The handler never lists methods. */
  predicate Listless(e: Event) {
    e.Received? ==> ListIn(e.answers.verdict) == None && ListIn(e.answers.offered) == None
  }

  /** From `n` on, no failure offers the method, and it is not remembered. */
  ghost predicate Off(t: Server, n: nat, m: Method) {
    && t.state != WaitingService
    && (t.state.WaitingRequest? ==> m !in t.state.auth.methods)
    && forall i :: n <= i < |t.out| && t.out[i].Failure? ==> m !in t.out[i].methods
  }

  /** What one event says: nothing that offers the method. */
  ghost predicate KeepsOff(s: Server, t: Server, m: Method) {
    && t.state != WaitingService
    && (t.state.WaitingRequest? ==> m !in t.state.auth.methods)
    && |s.out| <= |t.out| <= |s.out| + 1 && t.out[..|s.out|] == s.out
    && (|t.out| > |s.out| && t.out[|s.out|].Failure? ==> m !in t.out[|s.out|].methods)
  }

  lemma VerdictKeepsOff(s: Server, auth: AuthRequest, a: Answer, otherwise: seq<Method>, m: Method)
    requires s.state.WaitingRequest? && m !in s.state.auth.methods && m !in auth.methods && m !in otherwise
    requires ListIn(a) == None
    ensures KeepsOff(s, Judged(s, auth, a, otherwise), m) && KeepsOff(s, Rejected(s, auth), m) && KeepsOff(s, Replied(s, auth, a), m)
  {
  }

  lemma KeyKeepsOff(s: Server, user: string, r: Request, h: Answers, m: Method)
    requires s.state.WaitingRequest? && m !in s.state.auth.methods && r.KeyRequest?
    requires ListIn(h.verdict) == None && ListIn(h.offered) == None
    ensures KeepsOff(s, OnPublicKey(s, s.state.auth, user, r, h), m)
  {
    var auth, t := s.state.auth, s.(user := user);
    VerdictKeepsOff(s, auth, h.verdict, auth.methods, m);
    VerdictKeepsOff(t, auth, h.verdict, auth.methods, m);
    VerdictKeepsOff(t, auth, h.offered, auth.methods, m);
  }

  lemma RequestKeepsOff(s: Server, user: string, r: Request, h: Answers, m: Method)
    requires s.state.WaitingRequest? && m !in s.state.auth.methods
    requires ListIn(h.verdict) == None && ListIn(h.offered) == None
    ensures KeepsOff(s, OnRequest(s, s.state.auth, user, r, h), m)
  {
    var auth, t := s.state.auth, s.(user := user);
    match r {
      case PasswordRequest(_) => VerdictKeepsOff(t, auth, h.verdict, Without(auth.methods, Password), m);
      case NoneRequest => VerdictKeepsOff(s, auth, h.verdict, Without(auth.methods, NoMethod), m);
      case KeyRequest(_, _, _, _, _) => KeyKeepsOff(s, user, r, h, m);
      case InteractiveRequest(submethods) =>
        if submethods.Some? {
          VerdictKeepsOff(t, auth.(current := Interactive(submethods.value)), h.verdict, [], m);
        }
      case OtherRequest => VerdictKeepsOff(s, auth, h.verdict, [], m);
    }
  }

  lemma NextKeepsOff(s: Server, e: Event, m: Method)
    requires s.state != WaitingService && (s.state.WaitingRequest? ==> m !in s.state.auth.methods) && Listless(e)
    ensures KeepsOff(s, Next(s, e), m)
  {
    if s.state.WaitingRequest? && e.Received? && !s.ended {
      if e.packet.UserAuth? && e.packet.fields.Some? {
        RequestKeepsOff(s, e.packet.fields.value.0, e.packet.fields.value.2, e.answers, m);
      } else if e.packet.InfoResponse? {
        VerdictKeepsOff(s, s.state.auth, e.answers.verdict, [], m);
      }
    }
  }

  lemma StaysOff(s: Server, t: Server, n: nat, m: Method)
    requires Off(s, n, m) && n <= |s.out| && KeepsOff(s, t, m)
    ensures Off(t, n, m)
  {
    forall i | n <= i < |t.out| && t.out[i].Failure?
      ensures m !in t.out[i].methods
    {
      if i < |s.out| {
        assert t.out[i] == s.out[i];
      }
    }
  }

  lemma {:induction false} RunKeepsOff(s: Server, events: seq<Event>, n: nat, m: Method)
    requires Off(s, n, m) && n <= |s.out| && forall i :: 0 <= i < |events| ==> Listless(events[i])
    ensures Off(Run(s, events), n, m) && |Run(s, events).out| >= |s.out|
  {
    if events != [] {
      var before, e := events[..|events| - 1], events[|events| - 1];
      RunKeepsOff(s, before, n, m);
      NextKeepsOff(Run(s, before), e, m);
      StaysOff(Run(s, before), Run(s, events), n, m);
    }
  }

  /** Once a password has been refused, no failure offers passwords any more,
      whatever follows, unless the handler brings them back with a list of its
      own. The same goes for `none`. */
  lemma StruckStaysOff(s: Server, first: Event, events: seq<Event>)
    requires !s.ended && s.state.WaitingRequest? && Refusable(first) && Listless(first) && Struck(first.packet).Some?
    requires forall i :: 0 <= i < |events| ==> Listless(events[i])
    ensures var t := Run(Next(s, first), events);
            && |t.out| > |s.out|
            && forall i :: |s.out| <= i < |t.out| && t.out[i].Failure? ==> Struck(first.packet).value !in t.out[i].methods
  {
    MethodsLeftExactly(s, first);
    RunKeepsOff(Next(s, first), events, |s.out|, Struck(first.packet).value);
  }

  // ---------------------------------------------------------------------
  // Whom the server records
  // ---------------------------------------------------------------------

  /** After a refusal nobody is recorded if the handler's verdict on a password,
      on `none` or on a key refused it; a refused prompt leaves the user of its
      request recorded, and everything else leaves whoever was recorded, or the
      first user to sign. */
  lemma RecordedAfterRefusal(s: Server, e: Event)
    requires !s.ended && s.state.WaitingRequest? && Refusable(e)
    ensures Next(s, e).user
            == match e.packet
               case UserAuth(Some((user, _, r))) =>
                 (match r
                  case InteractiveRequest(_) => user
                  case OtherRequest => s.user
                  case KeyRequest(isReal, _, _, parsed, _) =>
                    if Decisive(s, s.state.auth, e.packet, e.answers).Some? then ""
                    else if UsableKey(parsed) && s.user == "" && !PreviouslyOffered(s, s.state.auth, user) then user
                    else s.user
                  case _ => "")
               case _ => s.user
  {
  }

  /** Every request is counted that does not end the connection, and one that
      logs in even if its greeting does. */
  lemma AttemptsAreCounted(s: Server, e: Event)
    ensures var t := Next(s, e);
            t.attempts == s.attempts
              + (if !s.ended && s.state.WaitingRequest? && e.Received? && e.packet.UserAuth? && (!t.ended || Grants(s, e)) then 1 else 0)
  {
    StateAdvances(s, e);
  }

  /** A certificate that has expired or is not yet valid, one with a bad
      signature, and a key of an unknown algorithm are refused: the handler is
      asked nothing, and nobody logs in. */
  lemma BadKeyIsRefused(s: Server, e: Event)
    requires !s.ended && s.state.WaitingRequest? && e.Received? && e.packet.UserAuth? && e.packet.fields.Some?
    requires e.packet.fields.value.1 == "ssh-connection" && e.packet.fields.value.2.KeyRequest?
    requires match e.packet.fields.value.2.parsed
             case Certificate(inDate, signed) => !inDate || !signed
             case UnknownAlgorithm => true
             case _ => false
    ensures var t, auth := Next(s, e), s.state.auth;
            && t.out == s.out + [Failure(auth.methods, auth.partialSuccess)] && !t.ended && t.user == s.user
            && t.state == WaitingRequest(auth.(current := Nothing, rejections := auth.rejections + 1))
            && !AsksAboutOffer(s, e) && !Grants(s, e)
  {
  }

  // ---------------------------------------------------------------------
  // Rounds of prompts
  // ---------------------------------------------------------------------

  predicate Round(e: Event) {
    e.Received? && e.packet == InfoResponse(true) && e.answers.verdict.Partial?
  }

  /** `t` has asked each of these prompts since `n`. */
  ghost predicate HasAsked(t: Server, n: nat, rounds: seq<Event>) {
    && |t.out| == n + |rounds|
    && forall i :: 0 <= i < |rounds| ==>
         Round(rounds[i]) && t.out[n + i] == InfoRequest(rounds[i].answers.verdict.prompts)
  }

  lemma {:induction false} RoundsGoOn(s: Server, rounds: seq<Event>)
    requires !s.ended && s.state.WaitingRequest? && s.state.auth.current.Interactive?
    requires forall i :: 0 <= i < |rounds| ==> Round(rounds[i])
    ensures var t := Run(s, rounds);
            t == s.(out := t.out) && s.out <= t.out && HasAsked(t, |s.out|, rounds)
  {
    if rounds != [] {
      var before, e := rounds[..|rounds| - 1], rounds[|rounds| - 1];
      RoundsGoOn(s, before);
      var t := Run(s, before);
      assert Next(t, e) == t.(out := t.out + [InfoRequest(e.answers.verdict.prompts)]);
    }
  }

  lemma RoundsBegin(s: Server, ask: Event)
    requires !s.ended && s.state.WaitingRequest? && Prompted(ask) && ask.packet.UserAuth?
    ensures var (user, _, r) := ask.packet.fields.value;
            Next(s, ask)
            == s.(user := user, attempts := s.attempts + 1, out := s.out + [InfoRequest(ask.answers.verdict.prompts)],
                  state := WaitingRequest(s.state.auth.(current := Interactive(r.submethods.value))))
  {
  }

  lemma RoundsEnd(s: Server, h: Answers)
    requires !s.ended && s.state.WaitingRequest? && s.state.auth.current.Interactive?
    ensures var t := Next(s, Received(InfoResponse(true), h)); t.user == s.user && (LoggedIn(t) <==> h.verdict.Accept?)
  {
    StateAdvances(s, Received(InfoResponse(true), h));
  }

  /** The handler's prompts go out round after round, as many as it wants; the
      request stays in progress for its user throughout, and the response after
      the last of them logs that user in exactly if the handler accepts it. */
  lemma PromptsUntilVerdict(s: Server, ask: Event, rounds: seq<Event>, h: Answers)
    requires !s.ended && s.state.WaitingRequest? && Prompted(ask) && ask.packet.UserAuth?
    requires forall i :: 0 <= i < |rounds| ==> Round(rounds[i])
    ensures var t, (user, _, r) := Run(Next(s, ask), rounds), ask.packet.fields.value;
            && t.state == WaitingRequest(s.state.auth.(current := Interactive(r.submethods.value))) && t.user == user
            && s.out + [InfoRequest(ask.answers.verdict.prompts)] <= t.out
            && HasAsked(t, |s.out| + 1, rounds)
            && var u := Next(t, Received(InfoResponse(true), h));
               && u.user == user
               && (LoggedIn(u) <==> h.verdict.Accept?)
  {
    RoundsBegin(s, ask);
    RoundsGoOn(Next(s, ask), rounds);
    RoundsEnd(Run(Next(s, ask), rounds), h);
  }

  // ---------------------------------------------------------------------
  // Keys asked about first
  // ---------------------------------------------------------------------

  /** An event that asks about a key the handler takes. */
  predicate Queries(e: Event) {
    && e.Received? && e.packet.UserAuth? && e.packet.fields.Some? && e.packet.fields.value.1 == CONNECTION
    && var r := e.packet.fields.value.2;
       r.KeyRequest? && !r.isReal && UsableKey(r.parsed) && e.answers.offered.Accept?
  }

  /** A key the handler takes is confirmed by the algorithm and key that were
      asked about; the same user's signature then logs in exactly if it verifies
      and the handler accepts, and the handler is not asked about the key again. */
  lemma QueryThenSign(s: Server, query: Event, signed: Event)
    requires !s.ended && s.state.WaitingRequest? && Queries(query) && Signs(signed)
    requires signed.packet.fields.value.0 == query.packet.fields.value.0
    ensures var t, (user, _, r) := Next(s, query), query.packet.fields.value;
            && t.out == s.out + [PkOk(r.algo, r.key)] && t.user == user && !t.ended
            && t.state == WaitingRequest(s.state.auth.(current := Offered(r.algo, r.key, true)))
            && !AsksAboutOffer(t, signed)
            && (LoggedIn(Next(t, signed)) <==> signed.answers.signatureValid && signed.answers.verdict.Accept?)
  {
    StateAdvances(Next(s, query), signed);
  }
}
