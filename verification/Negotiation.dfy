/** Algorithm negotiation (section 7.1 of RFC 4253): the KEXINIT message each
    side writes from its preferences, what the other side reads from it, and
    the choice both sides arrive at. */
module Negotiation {
  import opened Wire

  /** An algorithm name in ASCII. */
  type Name = seq<byte>

  const COMMA: byte := 44

  function Ascii(s: string): seq<byte>
    requires forall i :: 0 <= i < |s| ==> s[i] < 128 as char
  {
    seq(|s|, i requires 0 <= i < |s| => s[i] as int)
  }

  const EXT_INFO_C := Ascii("ext-info-c")
  const EXT_INFO_S := Ascii("ext-info-s")
  const STRICT_C := Ascii("kex-strict-c-v00@openssh.com")
  const STRICT_S := Ascii("kex-strict-s-v00@openssh.com")

  predicate IsExtension(n: Name) {
    n == EXT_INFO_C || n == EXT_INFO_S || n == STRICT_C || n == STRICT_S
  }

  lemma ExtensionsDiffer()
    ensures STRICT_C != STRICT_S && STRICT_C != EXT_INFO_S && STRICT_S != EXT_INFO_C
    ensures STRICT_C != [] && STRICT_S != []
  {
    assert STRICT_C[11] == 99 && STRICT_S[11] == 115;
    assert |STRICT_C| == |STRICT_S| == 28 && |EXT_INFO_C| == |EXT_INFO_S| == 10;
  }

  datatype Preferred = Preferred(kex: seq<Name>, key: seq<Name>, cipher: seq<Name>, mac: seq<Name>, compression: seq<Name>)

  datatype Role = Client | Server

  /** What one build of the library knows: the key exchanges it implements. */
  datatype Library = Library(kexes: set<Name>, needsMac: Name -> bool)

  datatype AlgorithmKind = Kex | HostKey | Cipher | Mac | Compression

  datatype Error = Inconsistent | Malformed | NoCommonAlgo(kind: AlgorithmKind)

  datatype Result<+T> = Success(value: T) | Failure(error: Error) {
    predicate IsFailure() {
      Failure?
    }

    function PropagateFailure<U>(): Result<U>
      requires Failure?
    {
      Failure(error)
    }

    function Extract(): T
      requires Success?
    {
      value
    }
  }

  datatype Names = Names(
    kex: Name, key: Name, cipher: Name, clientMac: Name, serverMac: Name,
    clientCompression: Name, serverCompression: Name, ignoreGuessed: bool, strict: bool)

  const MAC_NONE := Ascii("none")

  // ---------------------------------------------------------------------
  // Selection
  // ---------------------------------------------------------------------

  /** The first of the client's names that the server lists. */
  function FirstCommon(client: seq<Name>, server: seq<Name>): Option<Name> {
    if client == [] then None
    else if client[0] in server then Some(client[0])
    else FirstCommon(client[1..], server)
  }

  lemma {:induction false} FirstCommonMeans(client: seq<Name>, server: seq<Name>)
    ensures FirstCommon(client, server) == None <==> forall n :: n in client ==> n !in server
    ensures forall i :: 0 <= i < |client| && client[i] in server && (forall j :: 0 <= j < i ==> client[j] !in server)
              ==> FirstCommon(client, server) == Some(client[i])
    ensures FirstCommon(client, server).Some? ==> FirstCommon(client, server).value in client && FirstCommon(client, server).value in server
  {
    if client != [] {
      FirstCommonMeans(client[1..], server);
      forall i | 0 <= i < |client| && client[i] in server && (forall j :: 0 <= j < i ==> client[j] !in server)
        ensures FirstCommon(client, server) == Some(client[i])
      {
        if i > 0 {
          assert client[0] !in server;
          assert client[1..][i - 1] == client[i];
          assert forall j :: 0 <= j < i - 1 ==> client[1..][j] == client[j + 1];
        }
      }
    }
  }

  /** The loops of `Server::select` and `Client::select`: the client's order on
      the outside, the server's inside. */
  method SelectLoop(serverList: seq<Name>, clientList: seq<Name>) returns (r: Option<(bool, Name)>)
    ensures r.None? <==> FirstCommon(clientList, serverList) == None
    ensures r.Some? ==> FirstCommon(clientList, serverList) == Some(r.value.1)
    ensures r.Some? ==> clientList != [] && serverList != [] && (r.value.0 <==> clientList[0] == serverList[0])
  {
    var bothFirstChoice := true;
    for i := 0 to |clientList|
      invariant FirstCommon(clientList, serverList) == FirstCommon(clientList[i..], serverList)
      invariant bothFirstChoice <==> i == 0 || serverList == []
      invariant i > 0 && serverList != [] ==> clientList[0] != serverList[0]
    {
      assert clientList[i..][1..] == clientList[i + 1..];
      for j := 0 to |serverList|
        invariant clientList[i] !in serverList[..j]
        invariant bothFirstChoice <==> (i == 0 || serverList == []) && j == 0
        invariant (i > 0 && serverList != []) || j > 0 ==> clientList[0] != serverList[0]
      {
        if clientList[i] == serverList[j] {
          return Some((bothFirstChoice, serverList[j]));
        }
        bothFirstChoice := false;
      }
      assert serverList[..|serverList|] == serverList;
    }
    r := None;
  }

  function Select(role: Role, ours: seq<Name>, theirs: seq<Name>, kind: AlgorithmKind): Result<(bool, Name)> {
    var client := if role.Client? then ours else theirs;
    var server := if role.Client? then theirs else ours;
    match FirstCommon(client, server)
    case None => Failure(NoCommonAlgo(kind))
    case Some(n) => Success((server != [] && client[0] == server[0], n))
  }

  // ---------------------------------------------------------------------
  // Name lists
  // ---------------------------------------------------------------------

  function Filter(names: seq<Name>, keep: Name -> bool): (r: seq<Name>)
    ensures forall n :: n in r <==> n in names && keep(n)
  {
    if names == [] then [] else (if keep(names[0]) then [names[0]] else []) + Filter(names[1..], keep)
  }

  function Join(names: seq<Name>): seq<byte> {
    if names == [] then []
    else if |names| == 1 then names[0]
    else names[0] + [COMMA] + Join(names[1..])
  }

  /** `split(',')`: never empty; the empty string splits into one empty name. */
  function Split(s: seq<byte>): (r: seq<Name>)
    ensures r != []
  {
    if s == [] then [[]] else
      var rest := Split(s[1..]);
      if s[0] == COMMA then [[]] + rest else [[s[0]] + rest[0]] + rest[1..]
  }

  ghost predicate WellFormed(names: seq<Name>) {
    forall n :: n in names ==> n != [] && COMMA !in n
  }

  lemma {:induction false} SplitOne(n: Name)
    requires COMMA !in n
    ensures Split(n) == [n]
  {
    if n != [] {
      SplitOne(n[1..]);
      assert [n[0]] + n[1..] == n;
    }
  }

  lemma {:induction false} SplitAtComma(n: Name, rest: seq<byte>)
    requires COMMA !in n
    ensures Split(n + [COMMA] + rest) == [n] + Split(rest)
  {
    var s := n + [COMMA] + rest;
    if n == [] {
      assert s[1..] == rest;
    } else {
      SplitAtComma(n[1..], rest);
      assert s[1..] == n[1..] + [COMMA] + rest;
      assert [n[0]] + n[1..] == n;
    }
  }

  /** A list of proper names survives the wire, except that the empty list
      arrives as one empty name. */
  lemma {:induction false} SplitJoin(names: seq<Name>)
    requires WellFormed(names)
    ensures Split(Join(names)) == if names == [] then [[]] else names
  {
    if |names| == 1 {
      SplitOne(names[0]);
    } else if |names| > 1 {
      assert forall n :: n in names[1..] ==> n in names;
      SplitJoin(names[1..]);
      SplitAtComma(names[0], Join(names[1..]));
      assert [names[0]] + names[1..] == names;
    }
  }

  // ---------------------------------------------------------------------
  // KEXINIT
  // ---------------------------------------------------------------------

  const KEXINIT: byte := 20
  const COOKIE_END := 17

  predicate Compatible(key: Name, algo: Name) {
    if IsRsa(algo) then IsRsa(key) else key == algo
  }

  predicate IsRsa(algo: Name) {
    algo == Ascii("ssh-rsa") || algo == Ascii("rsa-sha2-256") || algo == Ascii("rsa-sha2-512")
  }

  predicate AnyCompatible(keys: seq<Name>, algo: Name) {
    exists i :: 0 <= i < |keys| && Compatible(keys[i], algo)
  }

  /** The host key algorithms an endpoint can use: a server's are limited to
      the keys it has. */
  function PossibleHostKeyAlgos(key: seq<Name>, available: Option<seq<Name>>): (r: seq<Name>)
    ensures forall n :: n in r <==> n in key && (available == None || AnyCompatible(available.value, n))
  {
    match available
    case None => key
    case Some(keys) => Filter(key, n => AnyCompatible(keys, n))
  }

  function EncodeList(names: seq<Name>): seq<byte>
    requires |Join(names)| < U32_BOUND
  {
    EncodeString(Join(names))
  }

  /** The kex names an endpoint announces: not the other role's extensions. */
  function AnnouncedKex(role: Role, kex: seq<Name>): (r: seq<Name>)
  {
    if role.Server? then Filter(kex, n => n != EXT_INFO_C && n != STRICT_C)
    else Filter(kex, n => n != EXT_INFO_S && n != STRICT_S)
  }

  /** The name lists are short enough for their 32-bit lengths. */
  ghost predicate Sendable(role: Role, p: Preferred, available: Option<seq<Name>>) {
    && |Join(AnnouncedKex(role, p.kex))| < U32_BOUND
    && |Join(PossibleHostKeyAlgos(p.key, available))| < U32_BOUND
    && |Join(p.cipher)| < U32_BOUND && |Join(p.mac)| < U32_BOUND && |Join(p.compression)| < U32_BOUND
  }

  /** `write_kex`: cookie, eight name lists, two empty language lists, no
      guessed packet, the reserved word. */
  function WriteKex(role: Role, p: Preferred, available: Option<seq<Name>>, cookie: seq<byte>): seq<byte>
    requires Sendable(role, p, available) && |cookie| == 16
  {
    [KEXINIT] + cookie
    + (EncodeList(AnnouncedKex(role, p.kex))
       + (EncodeList(PossibleHostKeyAlgos(p.key, available))
          + (EncodeList(p.cipher) + (EncodeList(p.cipher)
             + (EncodeList(p.mac) + (EncodeList(p.mac)
                + (EncodeList(p.compression) + (EncodeList(p.compression)
                   + (EncodeList([]) + (EncodeList([]) + [0, 0, 0, 0, 0]))))))))))
  }

  function TakeNames(r: seq<byte>): Result<(seq<Name>, seq<byte>)> {
    match DecodeString(r)
    case None => Failure(Malformed)
    case Some((list, rest)) => Success((Split(list), rest))
  }

  function LocalKex(kex: seq<Name>): (r: seq<Name>)
  {
    Filter(kex, n => !IsExtension(n))
  }

  /** Names this build does not implement, and with them the extensions, are dropped. */
  function RemoteKex(kex: seq<Name>, lib: Library): (r: seq<Name>)
  {
    Filter(kex, n => n in lib.kexes && !IsExtension(n))
  }

  predicate StrictAgreed(role: Role, ours: seq<Name>, theirs: seq<Name>) {
    if role.Server? then STRICT_S in ours && STRICT_C in theirs else STRICT_C in ours && STRICT_S in theirs
  }

  function ReadMac(role: Role, lib: Library, p: Preferred, cipher: Name, r: seq<byte>): Result<(Name, seq<byte>)> {
    var (macs, rest) :- TakeNames(r);
    match Select(role, p.mac, macs, Mac)
    case Success((_, mac)) => Success((mac, rest))
    case Failure(e) => if lib.needsMac(cipher) then Failure(e) else Success((MAC_NONE, rest))
  }

  function ReadCompression(role: Role, p: Preferred, r: seq<byte>): Result<(Name, seq<byte>)> {
    var (names, rest) :- TakeNames(r);
    var (_, compression) :- Select(role, p.compression, names, Compression);
    Success((compression, rest))
  }

  /** `read_kex`: the peer's KEXINIT against our preferences. */
  function ReadKex(role: Role, lib: Library, p: Preferred, available: Option<seq<Name>>, strictRekey: bool, buffer: seq<byte>): Result<Names> {
    if |buffer| < COOKIE_END then Failure(Inconsistent) else
      var (kexes, r1) :- TakeNames(buffer[COOKIE_END..]);
      var (kexFirst, kex) :- Select(role, LocalKex(p.kex), RemoteKex(kexes, lib), Kex);
      var strict := StrictAgreed(role, p.kex, kexes) || strictRekey;
      ReadHostKeys(role, lib, p, available, Names(kex, [], [], [], [], [], [], !kexFirst, strict), r1)
  }

  function ReadHostKeys(role: Role, lib: Library, p: Preferred, available: Option<seq<Name>>, names: Names, r1: seq<byte>): Result<Names> {
    var (hostKeys, r2) :- TakeNames(r1);
    var (keyFirst, key) :- Select(role, PossibleHostKeyAlgos(p.key, available), hostKeys, HostKey);
    ReadCiphers(role, lib, p, names.(key := key, ignoreGuessed := names.ignoreGuessed || !keyFirst), r2)
  }

  /** Only the client-to-server list decides; the other is skipped. */
  function ReadCiphers(role: Role, lib: Library, p: Preferred, names: Names, r2: seq<byte>): Result<Names> {
    var (ciphers, r3) :- TakeNames(r2);
    var (_, cipher) :- Select(role, p.cipher, ciphers, Cipher);
    var (_, r4) :- TakeNames(r3);
    ReadRest(role, lib, p, names.(cipher := cipher), r4)
  }

  function ReadRest(role: Role, lib: Library, p: Preferred, names: Names, r4: seq<byte>): Result<Names> {
    var (clientMac, r5) :- ReadMac(role, lib, p, names.cipher, r4);
    var (serverMac, r6) :- ReadMac(role, lib, p, names.cipher, r5);
    var (clientCompression, r7) :- ReadCompression(role, p, r6);
    var (serverCompression, r8) :- ReadCompression(role, p, r7);
    var (_, r9) :- TakeNames(r8);
    var (_, r10) :- TakeNames(r9);
    if r10 == [] then Failure(Malformed) else
      Success(names.(clientMac := clientMac, serverMac := serverMac,
                     clientCompression := clientCompression, serverCompression := serverCompression,
                     ignoreGuessed := r10[0] != 0 && names.ignoreGuessed))
  }

  // ---------------------------------------------------------------------
  // The choice both sides should make
  // ---------------------------------------------------------------------

  function Choose(client: seq<Name>, server: seq<Name>, kind: AlgorithmKind): Result<Name> {
    match FirstCommon(client, server)
    case None => Failure(NoCommonAlgo(kind))
    case Some(n) => Success(n)
  }

  /** Read off the two preference lists, with no messages in between: always
      the client's first name that the server lists. */
  function Agreement(lib: Library, client: Preferred, server: Preferred, serverKeys: seq<Name>, strictRekey: bool): Result<Names> {
    var kex :- Choose(client.kex, LocalKex(server.kex), Kex);
    var key :- Choose(client.key, PossibleHostKeyAlgos(server.key, Some(serverKeys)), HostKey);
    AgreeFrom(lib, client, server,
              Names(kex, key, [], [], [], [], [], false, (STRICT_C in client.kex && STRICT_S in server.kex) || strictRekey))
  }

  function AgreeFrom(lib: Library, client: Preferred, server: Preferred, names: Names): Result<Names> {
    var cipher :- Choose(client.cipher, server.cipher, Cipher);
    AgreeRest(lib, client, server, names.(cipher := cipher))
  }

  function AgreeRest(lib: Library, client: Preferred, server: Preferred, names: Names): Result<Names> {
    var mac :- (match FirstCommon(client.mac, server.mac)
                case Some(m) => Success(m)
                case None => if lib.needsMac(names.cipher) then Failure(NoCommonAlgo(Mac)) else Success(MAC_NONE));
    var compression :- Choose(client.compression, server.compression, Compression);
    Success(names.(clientMac := mac, serverMac := mac, clientCompression := compression, serverCompression := compression,
                   ignoreGuessed := false))
  }

  // ---------------------------------------------------------------------
  // Both sides make it
  // ---------------------------------------------------------------------

  /** A name list as the other side sees it. */
  function Seen(names: seq<Name>): seq<Name> {
    if names == [] then [[]] else names
  }

  lemma TakeList(names: seq<Name>, rest: seq<byte>)
    requires WellFormed(names) && |Join(names)| < U32_BOUND
    ensures TakeNames(EncodeList(names) + rest) == Success((Seen(names), rest))
  {
    StringRoundTrip(Join(names), rest);
    SplitJoin(names);
  }

  lemma {:induction false} SameMembers(client: seq<Name>, a: seq<Name>, b: seq<Name>)
    requires forall n :: n in client ==> (n in a <==> n in b)
    ensures FirstCommon(client, a) == FirstCommon(client, b)
  {
    if client != [] {
      SameMembers(client[1..], a, b);
    }
  }

  lemma {:induction false} FilterKeepsChoice(client: seq<Name>, keep: Name -> bool, server: seq<Name>)
    requires forall n :: n in client && n in server ==> keep(n)
    ensures FirstCommon(Filter(client, keep), server) == FirstCommon(client, server)
  {
    if client != [] {
      var rest := Filter(client[1..], keep);
      FilterKeepsChoice(client[1..], keep, server);
      if keep(client[0]) {
        assert ([client[0]] + rest)[1..] == rest;
      } else {
        assert [] + rest == rest;
      }
    }
  }

  /** Which of the two lists is ours does not matter to what is chosen. */
  lemma SelectAgrees(role: Role, client: seq<Name>, server: seq<Name>, kind: AlgorithmKind)
    requires WellFormed(client) && WellFormed(server)
    ensures var r := if role.Client? then Select(role, client, Seen(server), kind) else Select(role, server, Seen(client), kind);
            match Choose(client, server, kind)
            case Failure(e) => r == Failure(e)
            case Success(n) => r.Success? && r.value.1 == n
  {
    SameMembers(client, server, Seen(server));
    if client == [] {
      assert [] !in server;
      assert Seen(client)[1..] == [];
    }
  }

  ghost predicate Proper(p: Preferred) {
    WellFormed(p.kex) && WellFormed(p.key) && WellFormed(p.cipher) && WellFormed(p.mac) && WellFormed(p.compression)
  }

  /** Every key exchange a side prefers is one it implements. */
  ghost predicate Implemented(lib: Library, p: Preferred) {
    && (forall n :: n in p.kex ==> IsExtension(n) || n in lib.kexes)
    && (forall n :: n in lib.kexes ==> !IsExtension(n))
  }

  lemma KexAgrees(role: Role, lib: Library, client: Preferred, server: Preferred)
    requires Proper(client) && Proper(server)
    requires Implemented(lib, if role.Client? then client else server)
    ensures var r := if role.Client?
                     then Select(role, LocalKex(client.kex), RemoteKex(Seen(AnnouncedKex(Server, server.kex)), lib), Kex)
                     else Select(role, LocalKex(server.kex), RemoteKex(Seen(AnnouncedKex(Client, client.kex)), lib), Kex);
            match Choose(client.kex, LocalKex(server.kex), Kex)
            case Failure(e) => r == Failure(e)
            case Success(n) => r.Success? && r.value.1 == n
  {
    if role.Client? {
      var remote := RemoteKex(Seen(AnnouncedKex(Server, server.kex)), lib);
      assert forall n :: n in LocalKex(client.kex) ==> (n in remote <==> n in LocalKex(server.kex));
      SameMembers(LocalKex(client.kex), remote, LocalKex(server.kex));
      FilterKeepsChoice(client.kex, n => !IsExtension(n), LocalKex(server.kex));
    } else {
      var local := LocalKex(server.kex);
      var announced := AnnouncedKex(Client, client.kex);
      FilterKeepsChoice(client.kex, n => n != EXT_INFO_S && n != STRICT_S, local);
      FilterKeepsChoice(Seen(announced), n => n in lib.kexes && !IsExtension(n), local);
      assert [] !in local;
    }
  }

  lemma MacAgrees(role: Role, lib: Library, client: Preferred, server: Preferred, cipher: Name, rest: seq<byte>)
    requires Proper(client) && Proper(server)
    requires |Join(if role.Client? then server.mac else client.mac)| < U32_BOUND
    ensures var ours, theirs := if role.Client? then client else server, if role.Client? then server else client;
            ReadMac(role, lib, ours, cipher, EncodeList(theirs.mac) + rest)
            == match FirstCommon(client.mac, server.mac)
               case Some(m) => Success((m, rest))
               case None => if lib.needsMac(cipher) then Failure(NoCommonAlgo(Mac)) else Success((MAC_NONE, rest))
  {
    TakeList(if role.Client? then server.mac else client.mac, rest);
    SelectAgrees(role, client.mac, server.mac, Mac);
  }

  lemma CompressionAgrees(role: Role, client: Preferred, server: Preferred, rest: seq<byte>)
    requires Proper(client) && Proper(server)
    requires |Join(if role.Client? then server.compression else client.compression)| < U32_BOUND
    ensures var ours, theirs := if role.Client? then client else server, if role.Client? then server else client;
            ReadCompression(role, ours, EncodeList(theirs.compression) + rest)
            == match Choose(client.compression, server.compression, Compression)
               case Failure(e) => Failure(e)
               case Success(n) => Success((n, rest))
  {
    TakeList(if role.Client? then server.compression else client.compression, rest);
    SelectAgrees(role, client.compression, server.compression, Compression);
  }

  function TailBytes(p: Preferred): seq<byte>
    requires |Join(p.mac)| < U32_BOUND && |Join(p.compression)| < U32_BOUND
  {
    EncodeList(p.mac) + (EncodeList(p.mac)
      + (EncodeList(p.compression) + (EncodeList(p.compression)
         + (EncodeList([]) + (EncodeList([]) + [0, 0, 0, 0, 0])))))
  }

  lemma RestAgrees(role: Role, lib: Library, client: Preferred, server: Preferred, names: Names)
    requires Proper(client) && Proper(server)
    requires var theirs := if role.Client? then server else client;
             |Join(theirs.mac)| < U32_BOUND && |Join(theirs.compression)| < U32_BOUND
    ensures var ours, theirs := if role.Client? then client else server, if role.Client? then server else client;
            ReadRest(role, lib, ours, names, TailBytes(theirs)) == AgreeRest(lib, client, server, names)
  {
    var theirs := if role.Client? then server else client;
    var end := [0, 0, 0, 0, 0];
    var languages := EncodeList([]) + (EncodeList([]) + end);
    var second := EncodeList(theirs.compression) + languages;
    var compressions := EncodeList(theirs.compression) + second;
    MacAgrees(role, lib, client, server, names.cipher, EncodeList(theirs.mac) + compressions);
    MacAgrees(role, lib, client, server, names.cipher, compressions);
    CompressionAgrees(role, client, server, second);
    CompressionAgrees(role, client, server, languages);
    TakeList([], EncodeList([]) + end);
    TakeList([], end);
  }

  lemma StrictAgrees(role: Role, client: Preferred, server: Preferred)
    ensures var mine := if role.Client? then client else server;
            var theirs := if role.Client? then AnnouncedKex(Server, server.kex) else AnnouncedKex(Client, client.kex);
            StrictAgreed(role, mine.kex, Seen(theirs)) <==> STRICT_C in client.kex && STRICT_S in server.kex
  {
    ExtensionsDiffer();
  }

  lemma CiphersAgree(role: Role, lib: Library, client: Preferred, server: Preferred, names: Names)
    requires Proper(client) && Proper(server)
    requires var theirs := if role.Client? then server else client;
             |Join(theirs.cipher)| < U32_BOUND && |Join(theirs.mac)| < U32_BOUND && |Join(theirs.compression)| < U32_BOUND
    ensures var ours, theirs := if role.Client? then client else server, if role.Client? then server else client;
            ReadCiphers(role, lib, ours, names, EncodeList(theirs.cipher) + (EncodeList(theirs.cipher) + TailBytes(theirs)))
            == AgreeFrom(lib, client, server, names)
  {
    var theirs := if role.Client? then server else client;
    var tail := TailBytes(theirs);
    TakeList(theirs.cipher, EncodeList(theirs.cipher) + tail);
    TakeList(theirs.cipher, tail);
    SelectAgrees(role, client.cipher, server.cipher, Cipher);
    match Choose(client.cipher, server.cipher, Cipher) {
      case Failure(_) =>
      case Success(cipher) => RestAgrees(role, lib, client, server, names.(cipher := cipher));
    }
  }

  lemma HostKeysAgree(role: Role, lib: Library, client: Preferred, server: Preferred, keys: seq<Name>, names: Names, r2: seq<byte>)
    requires Proper(client) && Proper(server)
    requires |Join(if role.Client? then PossibleHostKeyAlgos(server.key, Some(keys)) else client.key)| < U32_BOUND
    requires forall key, guess ::
               ReadCiphers(role, lib, if role.Client? then client else server, names.(key := key, ignoreGuessed := guess), r2)
               == AgreeFrom(lib, client, server, names.(key := key, ignoreGuessed := false))
    ensures var ours := if role.Client? then client else server;
            var available := if role.Client? then None else Some(keys);
            var list := EncodeList(if role.Client? then PossibleHostKeyAlgos(server.key, Some(keys)) else client.key);
            ReadHostKeys(role, lib, ours, available, names, list + r2)
            == match Choose(client.key, PossibleHostKeyAlgos(server.key, Some(keys)), HostKey)
               case Failure(e) => Failure(e)
               case Success(key) => AgreeFrom(lib, client, server, names.(key := key, ignoreGuessed := false))
  {
    TakeList(if role.Client? then PossibleHostKeyAlgos(server.key, Some(keys)) else client.key, r2);
    SelectAgrees(role, client.key, PossibleHostKeyAlgos(server.key, Some(keys)), HostKey);
  }

  /** Whether the first packet was a correct guess is not part of the agreement. */
  lemma GuessIsForgotten(lib: Library, client: Preferred, server: Preferred, names: Names, guess: bool)
    ensures AgreeFrom(lib, client, server, names.(ignoreGuessed := guess)) == AgreeFrom(lib, client, server, names)
  {
  }

  /** The lists of a KEXINIT, read by the other side. */
  lemma ListsAgree(role: Role, lib: Library, client: Preferred, server: Preferred, keys: seq<Name>, names: Names)
    requires Proper(client) && Proper(server)
    requires if role.Client? then Sendable(Server, server, Some(keys)) else Sendable(Client, client, None)
    ensures var ours, theirs := if role.Client? then client else server, if role.Client? then server else client;
            var available := if role.Client? then None else Some(keys);
            var hostKeys := if role.Client? then PossibleHostKeyAlgos(server.key, Some(keys)) else client.key;
            ReadHostKeys(role, lib, ours, available, names,
                         EncodeList(hostKeys) + (EncodeList(theirs.cipher) + (EncodeList(theirs.cipher) + TailBytes(theirs))))
            == match Choose(client.key, PossibleHostKeyAlgos(server.key, Some(keys)), HostKey)
               case Failure(e) => Failure(e)
               case Success(key) => AgreeFrom(lib, client, server, names.(key := key, ignoreGuessed := false))
  {
    var theirs := if role.Client? then server else client;
    var r2 := EncodeList(theirs.cipher) + (EncodeList(theirs.cipher) + TailBytes(theirs));
    forall key, guess
      ensures ReadCiphers(role, lib, if role.Client? then client else server, names.(key := key, ignoreGuessed := guess), r2)
              == AgreeFrom(lib, client, server, names.(key := key, ignoreGuessed := false))
    {
      CiphersAgree(role, lib, client, server, names.(key := key, ignoreGuessed := guess));
      GuessIsForgotten(lib, client, server, names.(key := key, ignoreGuessed := false), guess);
    }
    HostKeysAgree(role, lib, client, server, keys, names, r2);
  }

  /** The agreement uses nothing of the library but which ciphers need a MAC. */
  lemma OnlyNeedsMacMatters(a: Library, b: Library, client: Preferred, server: Preferred, names: Names)
    requires a.needsMac == b.needsMac
    ensures AgreeFrom(a, client, server, names) == AgreeFrom(b, client, server, names)
  {
  }

  /** Each side, reading what the other wrote, arrives at the agreement that
      the two preference lists determine: both fail for the same reason or
      both succeed with identical names, strict-kex flag included. */
  lemma BothSidesAgree(role: Role, clientLib: Library, serverLib: Library, client: Preferred, server: Preferred,
                       keys: seq<Name>, strictRekey: bool, cookie: seq<byte>)
    requires Proper(client) && Proper(server) && |cookie| == 16
    requires Implemented(clientLib, client) && Implemented(serverLib, server)
    requires clientLib.needsMac == serverLib.needsMac
    requires if role.Client? then Sendable(Server, server, Some(keys)) else Sendable(Client, client, None)
    ensures var r := if role.Client?
                     then ReadKex(Client, clientLib, client, None, strictRekey, WriteKex(Server, server, Some(keys), cookie))
                     else ReadKex(Server, serverLib, server, Some(keys), strictRekey, WriteKex(Client, client, None, cookie));
            r == Agreement(clientLib, client, server, keys, strictRekey)
  {
    var lib := if role.Client? then clientLib else serverLib;
    var theirs := if role.Client? then server else client;
    var kexes := if role.Client? then AnnouncedKex(Server, server.kex) else AnnouncedKex(Client, client.kex);
    var hostKeys := if role.Client? then PossibleHostKeyAlgos(server.key, Some(keys)) else client.key;
    var r1 := EncodeList(hostKeys) + (EncodeList(theirs.cipher) + (EncodeList(theirs.cipher) + TailBytes(theirs)));
    var buffer := if role.Client? then WriteKex(Server, server, Some(keys), cookie) else WriteKex(Client, client, None, cookie);
    assert buffer == ([KEXINIT] + cookie) + (EncodeList(kexes) + r1);
    assert buffer[COOKIE_END..] == EncodeList(kexes) + r1;
    TakeList(kexes, r1);
    KexAgrees(role, lib, client, server);
    StrictAgrees(role, client, server);
    match Choose(client.kex, LocalKex(server.kex), Kex) {
      case Failure(_) =>
      case Success(kex) =>
        var strict := (STRICT_C in client.kex && STRICT_S in server.kex) || strictRekey;
        forall guess
          ensures ReadHostKeys(role, lib, if role.Client? then client else server, if role.Client? then None else Some(keys),
                               Names(kex, [], [], [], [], [], [], guess, strict), r1)
                  == Agreement(clientLib, client, server, keys, strictRekey)
        {
          var names := Names(kex, [], [], [], [], [], [], guess, strict);
          ListsAgree(role, lib, client, server, keys, names);
          match Choose(client.key, PossibleHostKeyAlgos(server.key, Some(keys)), HostKey) {
            case Failure(_) =>
            case Success(key) => OnlyNeedsMacMatters(clientLib, lib, client, server, names.(key := key, ignoreGuessed := false));
          }
        }
    }
  }

  /** What is agreed can be used: both sides implement the key exchange, the
      server has a key for the host key algorithm, and cipher and compression
      are on both lists. So the lookups that follow negotiation never fail. */
  lemma AgreedIsUsable(clientLib: Library, serverLib: Library, client: Preferred, server: Preferred, keys: seq<Name>, strictRekey: bool)
    requires Implemented(clientLib, client) && Implemented(serverLib, server)
    requires Agreement(clientLib, client, server, keys, strictRekey).Success?
    ensures var names := Agreement(clientLib, client, server, keys, strictRekey).value;
            && names.kex in clientLib.kexes && names.kex in serverLib.kexes && AnyCompatible(keys, names.key)
            && names.cipher in client.cipher && names.cipher in server.cipher
            && names.clientCompression in client.compression && names.clientCompression in server.compression
  {
    FirstCommonMeans(client.kex, LocalKex(server.kex));
    FirstCommonMeans(client.key, PossibleHostKeyAlgos(server.key, Some(keys)));
    FirstCommonMeans(client.cipher, server.cipher);
    FirstCommonMeans(client.compression, server.compression);
  }

  // ---------------------------------------------------------------------
  // Any KEXINIT
  // ---------------------------------------------------------------------

  /** The fields of a KEXINIT behind the cookie, as they travel: ten lists as
      strings, and what is behind them. */
  datatype Offer = Offer(
    kex: seq<byte>, key: seq<byte>, cipherIn: seq<byte>, cipherOut: seq<byte>, macIn: seq<byte>, macOut: seq<byte>,
    compressionIn: seq<byte>, compressionOut: seq<byte>, languagesIn: seq<byte>, languagesOut: seq<byte>, rest: seq<byte>)

  /** Every string has a 32-bit length, and the byte that says whether a guess
      follows is there. */
  predicate Complete(o: Offer) {
    && |o.kex| < U32_BOUND && |o.key| < U32_BOUND && |o.cipherIn| < U32_BOUND && |o.cipherOut| < U32_BOUND
    && |o.macIn| < U32_BOUND && |o.macOut| < U32_BOUND && |o.compressionIn| < U32_BOUND && |o.compressionOut| < U32_BOUND
    && |o.languagesIn| < U32_BOUND && |o.languagesOut| < U32_BOUND && o.rest != []
  }

  function CompressionBytes(o: Offer): seq<byte>
    requires Complete(o)
  {
    EncodeString(o.compressionIn) + (EncodeString(o.compressionOut)
      + (EncodeString(o.languagesIn) + (EncodeString(o.languagesOut) + o.rest)))
  }

  function CipherBytes(o: Offer): seq<byte>
    requires Complete(o)
  {
    EncodeString(o.cipherIn) + (EncodeString(o.cipherOut)
      + (EncodeString(o.macIn) + (EncodeString(o.macOut) + CompressionBytes(o))))
  }

  function OfferBytes(o: Offer): seq<byte>
    requires Complete(o)
  {
    EncodeString(o.kex) + (EncodeString(o.key) + CipherBytes(o))
  }

  /** The first name of the client's list that is on the server's. */
  function Chosen(role: Role, ours: seq<Name>, theirs: seq<Name>): Option<Name> {
    if role.Client? then FirstCommon(ours, theirs) else FirstCommon(theirs, ours)
  }

  predicate SameFirst(a: seq<Name>, b: seq<Name>) {
    a != [] && b != [] && a[0] == b[0]
  }

  lemma SelectChooses(role: Role, ours: seq<Name>, theirs: seq<Name>, kind: AlgorithmKind)
    ensures match Chosen(role, ours, theirs)
            case None => Select(role, ours, theirs, kind) == Failure(NoCommonAlgo(kind))
            case Some(n) => Select(role, ours, theirs, kind) == Success((SameFirst(ours, theirs), n))
  {
    FirstCommonMeans(if role.Client? then ours else theirs, if role.Client? then theirs else ours);
  }

  lemma TakeAny(s: seq<byte>, rest: seq<byte>)
    requires |s| < U32_BOUND
    ensures TakeNames(EncodeString(s) + rest) == Success((Split(s), rest))
  {
    StringRoundTrip(s, rest);
  }

  /** The MAC of one direction: the common one, or none if the cipher needs none. */
  function ChosenMac(role: Role, lib: Library, p: Preferred, cipher: Name, list: seq<byte>): Option<Name> {
    match Chosen(role, p.mac, Split(list))
    case Some(n) => Some(n)
    case None => if lib.needsMac(cipher) then None else Some(Ascii("none"))
  }

  lemma MacIsChosen(role: Role, lib: Library, p: Preferred, cipher: Name, list: seq<byte>, rest: seq<byte>)
    requires |list| < U32_BOUND
    ensures ReadMac(role, lib, p, cipher, EncodeString(list) + rest)
            == match ChosenMac(role, lib, p, cipher, list)
               case Some(n) => Success((n, rest))
               case None => Failure(NoCommonAlgo(Mac))
  {
    TakeAny(list, rest);
    SelectChooses(role, p.mac, Split(list), Mac);
  }

  lemma CompressionIsChosen(role: Role, p: Preferred, list: seq<byte>, rest: seq<byte>)
    requires |list| < U32_BOUND
    ensures ReadCompression(role, p, EncodeString(list) + rest)
            == match Chosen(role, p.compression, Split(list))
               case Some(n) => Success((n, rest))
               case None => Failure(NoCommonAlgo(Compression))
  {
    TakeAny(list, rest);
    SelectChooses(role, p.compression, Split(list), Compression);
  }

  /** What is read of the MAC and compression lists and the last byte. */
  predicate RestRead(role: Role, lib: Library, p: Preferred, names: Names, o: Offer, r: Result<Names>)
    requires Complete(o)
  {
    var macIn, macOut := ChosenMac(role, lib, p, names.cipher, o.macIn), ChosenMac(role, lib, p, names.cipher, o.macOut);
    var zipIn, zipOut := Chosen(role, p.compression, Split(o.compressionIn)), Chosen(role, p.compression, Split(o.compressionOut));
    if macIn == None || macOut == None then r == Failure(NoCommonAlgo(Mac))
    else if zipIn == None || zipOut == None then r == Failure(NoCommonAlgo(Compression))
    else r == Success(names.(clientMac := macIn.value, serverMac := macOut.value,
                             clientCompression := zipIn.value, serverCompression := zipOut.value,
                             ignoreGuessed := o.rest[0] != 0 && names.ignoreGuessed))
  }

  lemma RestIsRead(role: Role, lib: Library, p: Preferred, names: Names, o: Offer)
    requires Complete(o)
    ensures RestRead(role, lib, p, names, o,
                     ReadRest(role, lib, p, names, EncodeString(o.macIn) + (EncodeString(o.macOut) + CompressionBytes(o))))
  {
    var r9 := EncodeString(o.languagesOut) + o.rest;
    var r8 := EncodeString(o.languagesIn) + r9;
    var r7 := EncodeString(o.compressionOut) + r8;
    MacIsChosen(role, lib, p, names.cipher, o.macIn, EncodeString(o.macOut) + CompressionBytes(o));
    MacIsChosen(role, lib, p, names.cipher, o.macOut, CompressionBytes(o));
    CompressionIsChosen(role, p, o.compressionIn, r7);
    CompressionIsChosen(role, p, o.compressionOut, r8);
    TakeAny(o.languagesIn, r9);
    TakeAny(o.languagesOut, o.rest);
  }

  /** What either role makes of any KEXINIT whatever, cookie and message number
      aside: each name is the first of the client's list that the server has, the
      server-to-client cipher list counts for nothing, key exchanges that are
      extensions or not implemented do not count, and a guessed packet is ignored
      exactly if one follows and the first key exchanges or the first host keys
      differ. */
  lemma AnyInitIsRead(role: Role, lib: Library, p: Preferred, available: Option<seq<Name>>, strictRekey: bool,
                      head: seq<byte>, o: Offer)
    requires |head| == 17 && Complete(o)
    ensures var r := ReadKex(role, lib, p, available, strictRekey, head + OfferBytes(o));
            var local, remote := LocalKex(p.kex), RemoteKex(Split(o.kex), lib);
            var ourKeys := PossibleHostKeyAlgos(p.key, available);
            var kex, key, cipher := Chosen(role, local, remote), Chosen(role, ourKeys, Split(o.key)), Chosen(role, p.cipher, Split(o.cipherIn));
            if kex == None then r == Failure(NoCommonAlgo(Kex))
            else if key == None then r == Failure(NoCommonAlgo(HostKey))
            else if cipher == None then r == Failure(NoCommonAlgo(Cipher))
            else
              RestRead(role, lib, p,
                       Names(kex.value, key.value, cipher.value, [], [], [], [],
                             !SameFirst(local, remote) || !SameFirst(ourKeys, Split(o.key)),
                             strictRekey || (if role.Server? then STRICT_S in p.kex && STRICT_C in Split(o.kex)
                                             else STRICT_C in p.kex && STRICT_S in Split(o.kex))),
                       o, r)
  {
    var buffer := head + OfferBytes(o);
    assert buffer[17..] == OfferBytes(o);
    var local, remote := LocalKex(p.kex), RemoteKex(Split(o.kex), lib);
    TakeAny(o.kex, EncodeString(o.key) + CipherBytes(o));
    SelectChooses(role, local, remote, Kex);
    var strict := strictRekey || (if role.Server? then STRICT_S in p.kex && STRICT_C in Split(o.kex)
                                  else STRICT_C in p.kex && STRICT_S in Split(o.kex));
    var kex := Chosen(role, local, remote);
    if kex.Some? {
      HostKeysAreRead(role, lib, p, available, Names(kex.value, [], [], [], [], [], [], !SameFirst(local, remote), strict), o);
    }
  }

  lemma HostKeysAreRead(role: Role, lib: Library, p: Preferred, available: Option<seq<Name>>, names: Names, o: Offer)
    requires Complete(o)
    ensures var r := ReadHostKeys(role, lib, p, available, names, EncodeString(o.key) + CipherBytes(o));
            var ourKeys := PossibleHostKeyAlgos(p.key, available);
            var key, cipher := Chosen(role, ourKeys, Split(o.key)), Chosen(role, p.cipher, Split(o.cipherIn));
            if key == None then r == Failure(NoCommonAlgo(HostKey))
            else if cipher == None then r == Failure(NoCommonAlgo(Cipher))
            else RestRead(role, lib, p,
                          names.(key := key.value, cipher := cipher.value,
                                 ignoreGuessed := names.ignoreGuessed || !SameFirst(ourKeys, Split(o.key))), o, r)
  {
    var ourKeys := PossibleHostKeyAlgos(p.key, available);
    var r4 := EncodeString(o.macIn) + (EncodeString(o.macOut) + CompressionBytes(o));
    TakeAny(o.key, CipherBytes(o));
    SelectChooses(role, ourKeys, Split(o.key), HostKey);
    TakeAny(o.cipherIn, EncodeString(o.cipherOut) + r4);
    SelectChooses(role, p.cipher, Split(o.cipherIn), Cipher);
    TakeAny(o.cipherOut, r4);
    var key, cipher := Chosen(role, ourKeys, Split(o.key)), Chosen(role, p.cipher, Split(o.cipherIn));
    if key.Some? && cipher.Some? {
      RestIsRead(role, lib, p,
                 names.(key := key.value, cipher := cipher.value,
                        ignoreGuessed := names.ignoreGuessed || !SameFirst(ourKeys, Split(o.key))), o);
    }
  }

  /** The names at the head of `r` were written as one string. */
  lemma TakenIsWritten(r: seq<byte>) returns (list: seq<byte>)
    requires TakeNames(r).Success?
    ensures |list| < U32_BOUND && r == EncodeString(list) + TakeNames(r).value.1 && TakeNames(r).value.0 == Split(list)
  {
    StringIsEncoded(r);
    list := DecodeString(r).value.0;
  }

  /** Four lists follow, and something behind them. */
  predicate FourLists(r: seq<byte>) {
    TakeNames(r).Success? &&
    var r1 := TakeNames(r).value.1;
    TakeNames(r1).Success? &&
    var r2 := TakeNames(r1).value.1;
    TakeNames(r2).Success? &&
    var r3 := TakeNames(r2).value.1;
    TakeNames(r3).Success? && TakeNames(r3).value.1 != []
  }

  lemma FourAreWritten(r: seq<byte>) returns (o: Offer)
    requires FourLists(r)
    ensures Complete(o) && r == CompressionBytes(o)
  {
    var r1 := TakeNames(r).value.1;
    var r2 := TakeNames(r1).value.1;
    var r3 := TakeNames(r2).value.1;
    var a := TakenIsWritten(r);
    var b := TakenIsWritten(r1);
    var c := TakenIsWritten(r2);
    var d := TakenIsWritten(r3);
    o := Offer([], [], [], [], [], [], a, b, c, d, TakeNames(r3).value.1);
  }

  lemma MacTakesOne(role: Role, lib: Library, p: Preferred, cipher: Name, r: seq<byte>)
    requires ReadMac(role, lib, p, cipher, r).Success?
    ensures TakeNames(r).Success? && ReadMac(role, lib, p, cipher, r).value.1 == TakeNames(r).value.1
  {
  }

  lemma CompressionTakesOne(role: Role, p: Preferred, r: seq<byte>)
    requires ReadCompression(role, p, r).Success?
    ensures TakeNames(r).Success? && ReadCompression(role, p, r).value.1 == TakeNames(r).value.1
  {
  }

  lemma RestHasLists(role: Role, lib: Library, p: Preferred, names: Names, r4: seq<byte>)
    requires ReadRest(role, lib, p, names, r4).Success?
    ensures TakeNames(r4).Success?
    ensures var r5 := TakeNames(r4).value.1; TakeNames(r5).Success? && FourLists(TakeNames(r5).value.1)
  {
    MacTakesOne(role, lib, p, names.cipher, r4);
    var r5 := TakeNames(r4).value.1;
    MacTakesOne(role, lib, p, names.cipher, r5);
    var r6 := TakeNames(r5).value.1;
    CompressionTakesOne(role, p, r6);
    CompressionTakesOne(role, p, TakeNames(r6).value.1);
  }

  lemma CiphersAreWritten(role: Role, lib: Library, p: Preferred, names: Names, r2: seq<byte>) returns (o: Offer)
    requires ReadCiphers(role, lib, p, names, r2).Success?
    ensures Complete(o) && r2 == CipherBytes(o)
  {
    var r3 := TakeNames(r2).value.1;
    var r4 := TakeNames(r3).value.1;
    var cipher := Select(role, p.cipher, TakeNames(r2).value.0, Cipher).value.1;
    RestHasLists(role, lib, p, names.(cipher := cipher), r4);
    var r5 := TakeNames(r4).value.1;
    var four := FourAreWritten(TakeNames(r5).value.1);
    var a := TakenIsWritten(r2);
    var b := TakenIsWritten(r3);
    var c := TakenIsWritten(r4);
    var d := TakenIsWritten(r5);
    o := SixLists(four, a, b, c, d);
  }

  /** An offer with these lists of ciphers and MACs. */
  function SixLists(o: Offer, a: seq<byte>, b: seq<byte>, c: seq<byte>, d: seq<byte>): (r: Offer)
    requires Complete(o) && |a| < U32_BOUND && |b| < U32_BOUND && |c| < U32_BOUND && |d| < U32_BOUND
    ensures Complete(r)
    ensures CipherBytes(r) == EncodeString(a) + (EncodeString(b) + (EncodeString(c) + (EncodeString(d) + CompressionBytes(o))))
  {
    o.(cipherIn := a, cipherOut := b, macIn := c, macOut := d)
  }

  /** And nothing else is accepted: what negotiation succeeds on is 17 bytes and
      a complete offer. */
  lemma AcceptedIsComplete(role: Role, lib: Library, p: Preferred, available: Option<seq<Name>>, strictRekey: bool,
                           buffer: seq<byte>) returns (o: Offer)
    requires ReadKex(role, lib, p, available, strictRekey, buffer).Success?
    ensures Complete(o) && |buffer| >= 17 && buffer == buffer[..17] + OfferBytes(o)
  {
    var r1 := TakeNames(buffer[17..]).value.1;
    var (kexFirst, chosen) := Select(role, LocalKex(p.kex), RemoteKex(TakeNames(buffer[17..]).value.0, lib), Kex).value;
    var strict := StrictAgreed(role, p.kex, TakeNames(buffer[17..]).value.0) || strictRekey;
    var rest := HostKeysAreWritten(role, lib, p, available, Names(chosen, [], [], [], [], [], [], !kexFirst, strict), r1);
    var kex := TakenIsWritten(buffer[17..]);
    o := rest.(kex := kex);
    assert CipherBytes(o) == CipherBytes(rest);
    assert buffer[17..] == OfferBytes(o);
  }

  lemma HostKeysAreWritten(role: Role, lib: Library, p: Preferred, available: Option<seq<Name>>, names: Names, r1: seq<byte>)
    returns (o: Offer)
    requires ReadHostKeys(role, lib, p, available, names, r1).Success?
    ensures Complete(o) && r1 == EncodeString(o.key) + CipherBytes(o)
  {
    var (first, chosen) := Select(role, PossibleHostKeyAlgos(p.key, available), TakeNames(r1).value.0, HostKey).value;
    var rest := CiphersAreWritten(role, lib, p, names.(key := chosen, ignoreGuessed := names.ignoreGuessed || !first), TakeNames(r1).value.1);
    var key := TakenIsWritten(r1);
    o := rest.(key := key);
    assert CipherBytes(o) == CipherBytes(rest);
  }

  /** The marker names that each role leaves out are the other role's own. */
  lemma AnnouncedExactly(role: Role, kex: seq<Name>, n: Name)
    ensures n in AnnouncedKex(role, kex) <==>
            n in kex && (if role.Server? then n != Ascii("ext-info-c") && n != Ascii("kex-strict-c-v00@openssh.com")
                         else n != Ascii("ext-info-s") && n != Ascii("kex-strict-s-v00@openssh.com"))
  {
  }

  /** An RSA key serves the three RSA algorithms, and any other key exactly the
      algorithm of its own name. */
  lemma KeyServes(key: Name, algo: Name)
    ensures Compatible(Ascii("ssh-rsa"), algo)
            <==> algo == Ascii("ssh-rsa") || algo == Ascii("rsa-sha2-256") || algo == Ascii("rsa-sha2-512")
    ensures !IsRsa(key) ==> (Compatible(key, algo) <==> key == algo)
  {
  }

  /** What is written is such an offer: the cookie behind the message number 20,
      then the lists in their order, joined by commas, those of the two
      directions alike, no languages, no guess, and a reserved word of 0. */
  lemma InitLayout(role: Role, p: Preferred, available: Option<seq<Name>>, cookie: seq<byte>)
    requires Sendable(role, p, available) && |cookie| == 16
    ensures var o := Offer(Join(AnnouncedKex(role, p.kex)), Join(PossibleHostKeyAlgos(p.key, available)),
                           Join(p.cipher), Join(p.cipher), Join(p.mac), Join(p.mac), Join(p.compression), Join(p.compression),
                           [], [], [0, 0, 0, 0, 0]);
            Complete(o) && WriteKex(role, p, available, cookie) == [20] + cookie + OfferBytes(o)
  {
  }

  lemma JoinPutsCommas(names: seq<Name>)
    requires |names| == 3
    ensures Join(names) == names[0] + Ascii(",") + names[1] + Ascii(",") + names[2]
  {
    var comma := Ascii(",");
    assert comma == [44];
    assert names[1..][1..] == names[2..] && |names[2..]| == 1;
    assert Join(names[1..]) == names[1] + [44] + names[2];
  }
}
