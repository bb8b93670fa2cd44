/** Writing reserve and mode through the cached client to a gateway that has a state
    of its own: the read back, the write, and what every later read says. */
module LocalWrites {
  import opened Common
  import opened ResponseCache
  import opened LocalClient
  import opened Operations
  import Connect

  const API_OPERATION := "/api/operation"
  const API_STATUS := "/api/status"

  /** What the facade makes of a body of the operation endpoint, if anything: of its
      bytes, and of the document it decodes to. */
  datatype Decoder = Decoder(text: string -> Option<Operation>, document: Document -> Option<Operation>)

  /** The client, the state of the gateway behind it, and what the gateway falls back
      to for a field that a write lacks. Only this client writes to the gateway. */
  datatype World = World(client: State, gateway: Gateway, defaults: Gateway)

  function StateOf(g: Gateway): (op: Operation) { Operation(Some(g.reserve), g.mode) }

  /** The content reports the state of the gateway, both fields of it, in the
      representation asked for. */
  predicate ContentTells(decode: Decoder, g: Gateway, raw: bool, content: Content) {
    if raw then content.Raw? && content.bytes != "" && decode.text(content.bytes) == Some(StateOf(g))
    else content.Parsed? && decode.document(content.json) == Some(StateOf(g))
  }

  /** The body does so in both representations. */
  predicate Tells(decode: Decoder, g: Gateway, body: Body) {
    ContentTells(decode, g, true, Represent(body, true)) && ContentTells(decode, g, false, Represent(body, false))
  }

  /** No content reports two states. */
  lemma OneContentTellsOneState(decode: Decoder, g: Gateway, g': Gateway, raw: bool, content: Content)
    requires ContentTells(decode, g, raw, content) && ContentTells(decode, g', raw, content)
    ensures g == g'
  {
    assert StateOf(g).reserve == StateOf(g').reserve && StateOf(g).mode == StateOf(g').mode;
  }

  /** Whatever else goes wrong, a reply that is served tells the truth. */
  predicate Honest(decode: Decoder, g: Gateway, reply: Reply) {
    reply.Http? && reply.status < 400 && reply.body.Some? ==> Tells(decode, g, reply.body.value)
  }

  predicate HonestNet(decode: Decoder, g: Gateway, net: Net) {
    Honest(decode, g, net.first) && Honest(decode, g, net.second)
  }

  // ------------------------------------------------------------------- one write

  function ReadBack(decode: Decoder, res: Result<Content, HttpError>): (op: Option<Operation>) {
    if res.Ok? && res.value.Raw? && res.value.bytes != "" then decode.text(res.value.bytes) else None
  }

  /** The exchanges of a write, for the read back, the identity of the gateway and the
      post, and whether the gateway carried it out. */
  datatype Exchange = Exchange(read: Net, din: Net, post: Net, applied: bool)

  /** A reply below 400 means that the write was carried out; any other outcome leaves
      that open. */
  predicate Acknowledges(x: Exchange) {
    LastReply(false, x.post).Http? && LastReply(false, x.post).status < 400 ==> x.applied
  }

  /** The state after the read back, if one is needed, and what it found. */
  function AfterRead(w: World, decode: Decoder, level: Option<real>, mode: Option<string>, x: Exchange)
    : (r: (State, Option<Operation>))
  {
    if OutOfRange(level) || !NeedsReadBack(Connect.ModeLocal, level, mode) then (w.client, None)
    else
      var (s, res) := PollOutcome(w.client, API_OPERATION, true, false, true, x.read);
      (s, ReadBack(decode, res))
  }

  /** The identity is polled from the status endpoint; without one the post goes out all
      the same. */
  function AfterDin(s: State, x: Exchange): (s': State) {
    PollOutcome(s, API_STATUS, false, false, true, x.din).0
  }

  /** Setting the operation in local mode: what goes out, and the post's own result. */
  function Write(w: World, decode: Decoder, level: Option<real>, mode: Option<string>, x: Exchange)
    : (r: (World, Option<Payload>, bool))
  {
    var (s, read) := AfterRead(w, decode, level, mode, x);
    var sent := Sent(Connect.ModeLocal, level, mode, read);
    if sent.None? then (w.(client := s), None, false)
    else
      var (s', res) := PostOutcome(AfterDin(s, x), API_OPERATION, false, false, x.post);
      var g := After(w.gateway, w.defaults, sent, x.applied && ValidUrl(s.urls, API_OPERATION));
      (World(s', g, w.defaults), sent, res.Ok?)
  }

  // ------------------------------------------------------------------------ runs

  datatype Op =
    | Look(api: string, force: bool, recursive: bool, raw: bool, net: Net)
    | Set(level: Option<real>, mode: Option<string>, x: Exchange)
    | PostElsewhere(api: string, recursive: bool, raw: bool, net: Net)
    | Pause(d: nat)

  /** The gateway may answer so, and the call is one that is modelled here. */
  predicate Possible(w: World, decode: Decoder, op: Op) {
    match op
    case Look(api, _, _, _, net) => api == API_OPERATION ==> HonestNet(decode, w.gateway, net)
    case Set(_, _, x) => HonestNet(decode, w.gateway, x.read) && Acknowledges(x)
    case PostElsewhere(api, _, _, _) => api != API_OPERATION
    case Pause(_) => true
  }

  function Step(w: World, decode: Decoder, op: Op): (w': World) {
    if !Possible(w, decode, op) then w
    else
      match op
      case Look(api, force, recursive, raw, net) =>
        w.(client := LocalClient.Poll(w.client, api, force, recursive, raw, net).0)
      case Set(level, mode, x) => Write(w, decode, level, mode, x).0
      case PostElsewhere(api, recursive, raw, net) => w.(client := PostOutcome(w.client, api, recursive, raw, net).0)
      case Pause(d) => w.(client := Later(w.client, d))
  }

  function Run(w: World, decode: Decoder, ops: seq<Op>): (w': World) {
    if ops == [] then w else Step(Run(w, decode, ops[..|ops| - 1]), decode, ops[|ops| - 1])
  }

  predicate HasModes(w: World) { w.gateway.mode != "" && w.defaults.mode != "" }

  // ------------------------------------------------------- what the read back finds

  /** What is cached of the operation endpoint is the present state of the gateway. */
  ghost predicate CacheTells(s: State, decode: Decoder, g: Gateway) {
    forall raw :: EntryTells(s.items, decode, g, raw)
  }

  ghost predicate EntryTells(items: Items<Content>, decode: Decoder, g: Gateway, raw: bool) {
    var key := KeyFor(API_OPERATION, raw);
    key in items && items[key].entry.Positive? ==> ContentTells(decode, g, raw, items[key].entry.value)
  }

  /** An answer to a poll comes from the cache or from one of the two replies. */
  lemma AnswerIsTold(s: State, decode: Decoder, g: Gateway, force: bool, recursive: bool, raw: bool, net: Net)
    requires HonestNet(decode, g, net)
    requires !force && Lookup(s.items, KeyFor(API_OPERATION, raw), s.now, None).PositiveHit? ==>
      EntryTells(s.items, decode, g, raw)
    ensures var res := PollOutcome(s, API_OPERATION, force, recursive, raw, net).1;
            res.Ok? ==> ContentTells(decode, g, raw, res.value)
    decreases !recursive
  {
    if GoesOut(s, API_OPERATION, force, raw) {
      if Expired(recursive, net.first) {
        MissStaysMiss(s, API_OPERATION, force, raw, net);
        var s1 := AfterLogin(Exchanged(s, API_OPERATION, net.first), net);
        assert s1.items == s.items;
        AnswerIsTold(s1, decode, g, force, true, raw, net.(first := net.second));
      }
    } else {
      NothingGoesOut(s, API_OPERATION, force, recursive, raw, net);
    }
  }

  /** The read back finds the state of the gateway, or it finds nothing. */
  lemma ReadBackIsTrue(w: World, decode: Decoder, level: Option<real>, mode: Option<string>, x: Exchange)
    requires HonestNet(decode, w.gateway, x.read)
    ensures AfterRead(w, decode, level, mode, x).1 in {None, Some(StateOf(w.gateway))}
  {
    AnswerIsTold(w.client, decode, w.gateway, true, false, true, x.read);
  }

  /** Setting one of the two fields never changes the other one of the gateway, in
      whatever state the client is, whatever its cache holds, and however the read
      back and the post end. The gateway takes the supplied field if it carried the
      write out, and stays as it was if not. */
  lemma SetLeavesOtherField(w: World, decode: Decoder, level: Option<real>, mode: Option<string>, x: Exchange)
    requires HasModes(w) && Possible(w, decode, Set(level, mode, x)) && level.Some? != Given(mode)
    ensures var (w', sent, ok) := Write(w, decode, level, mode, x);
            var took := sent.Some? && x.applied && ValidUrl(w.client.urls, API_OPERATION);
            && w'.gateway == (if !took then w.gateway
                              else Gateway(if level.Some? then level.value else w.gateway.reserve,
                                           if Given(mode) then mode.value else w.gateway.mode))
            && (ok && LastReply(false, x.post).status < 400 ==> took)
  {
    ReadBackIsTrue(w, decode, level, mode, x);
    var (s, read) := AfterRead(w, decode, level, mode, x);
    PollKeepsFixed(w.client, API_OPERATION, true, false, true, x.read);
    PollKeepsFixed(s, API_STATUS, false, false, true, x.din);
    if PostOutcome(AfterDin(s, x), API_OPERATION, false, false, x.post).1.Ok? {
      OkMeansReply(AfterDin(s, x), API_OPERATION, false, false, x.post);
    }
  }

  /** A write of one field goes out exactly when its level is in range and the read back
      was asked for and answered, and then it carries both fields: the supplied one, and
      the gateway's own for the other. */
  lemma SetGoesOutWhenRead(w: World, decode: Decoder, level: Option<real>, mode: Option<string>, x: Exchange)
    requires HonestNet(decode, w.gateway, x.read) && HasModes(w) && level.Some? != Given(mode)
    ensures var reply := LastReply(false, x.read);
            var answered := reply.Http? && reply.status < 400 && reply.body.Some?;
            Write(w, decode, level, mode, x).1
            == if !OutOfRange(level) && GoesOut(w.client, API_OPERATION, true, true) && answered
               then Some(Payload(Some(if level.Some? then level.value else w.gateway.reserve),
                                 Some(if Given(mode) then mode.value else w.gateway.mode)))
               else None
  {
    AnswerIsTold(w.client, decode, w.gateway, true, false, true, x.read);
    if GoesOut(w.client, API_OPERATION, true, true) {
      LastReplyDecides(w.client, API_OPERATION, true, false, true, x.read);
    } else {
      HeldBackPoll(w.client, API_OPERATION, true, false, true, x.read);
    }
  }

  /** A write of both fields or of none reads nothing back, and asks only for the identity
      of the gateway first, if that is not cached. */
  lemma WholeWriteReadsNothing(w: World, decode: Decoder, level: Option<real>, mode: Option<string>, x: Exchange,
                               read: Net)
    requires level.Some? == Given(mode)
    ensures Write(w, decode, level, mode, x) == Write(w, decode, level, mode, x.(read := read))
    ensures Write(w, decode, level, mode, x).1.None? <==> OutOfRange(level)
    ensures !OutOfRange(level) && GoesOut(w.client, API_STATUS, false, true) ==>
      w.client.log + [Asked(API_STATUS, w.client.now)] <= Write(w, decode, level, mode, x).0.client.log
  {
    if !OutOfRange(level) {
      if GoesOut(w.client, API_STATUS, false, true) {
        RequestIsLogged(w.client, API_STATUS, false, false, true, x.din);
      }
      PostExtendsLog(AfterDin(w.client, x), API_OPERATION, false, false, x.post);
    }
  }

  lemma PostExtendsLog(s: State, api: string, recursive: bool, raw: bool, net: Net)
    ensures s.log <= PostOutcome(s, api, recursive, raw, net).0.log
    decreases !recursive
  {
    if Expired(recursive, net.first) {
      PostExtendsLog(AfterLogin(Later(s, net.first.elapsed), net), api, true, raw, net.(first := net.second));
    }
  }

  lemma OkMeansReply(s: State, api: string, recursive: bool, raw: bool, net: Net)
    requires PostOutcome(s, api, recursive, raw, net).1.Ok?
    ensures ValidUrl(s.urls, api) && LastReply(recursive, net).Http?
    decreases !recursive
  {
    if Expired(recursive, net.first) && net.login {
      OkMeansReply(AfterLogin(Later(s, net.first.elapsed), net), api, true, raw, net.(first := net.second));
    }
  }

  // ----------------------------------------------------- what every later read says

  lemma SettledKeepsCache(s: State, decode: Decoder, g: Gateway, api: string, raw: bool, reply: Reply)
    requires CacheTells(s, decode, g) && ValidUrl(s.urls, api) && (api == API_OPERATION ==> Honest(decode, g, reply))
    ensures CacheTells(Settled(s, api, raw, reply).0, decode, g)
  {
    var s' := Settled(s, api, raw, reply).0;
    ValidUrlIsPlain(s.urls, api);
    forall raw' ensures EntryTells(s'.items, decode, g, raw') {
      assert EntryTells(s.items, decode, g, raw');
      if reply.Http? && reply.status < 400 && reply.body.Some? {
        if KeyFor(api, raw) == KeyFor(API_OPERATION, raw') {
          KeysMeet(api, raw, raw');
        }
      } else {
        OnlyContentIsPositive(s, api, raw, reply, KeyFor(API_OPERATION, raw'));
      }
    }
  }

  /** A reply without content puts nothing but negative entries. */
  lemma OnlyContentIsPositive(s: State, api: string, raw: bool, reply: Reply, key: string)
    requires reply.Http? && reply.status < 400 ==> reply.body.None?
    ensures var items' := Settled(s, api, raw, reply).0.items;
            key in items' && items'[key].entry.Positive? ==> key in s.items && items'[key] == s.items[key]
  {
  }

  /** Only polls of the operation endpoint use its keys. */
  lemma KeysMeet(api: string, raw: bool, raw': bool)
    requires KeyFor(api, raw) == KeyFor(API_OPERATION, raw') && !(RAW_PREFIX <= api)
    ensures api == API_OPERATION && raw == raw'
  {
    assert API_OPERATION[0] != RAW_PREFIX[0];
    if raw && raw' {
      RawKeyIsInjective(api, API_OPERATION);
    }
  }

  lemma PollKeepsCache(s: State, decode: Decoder, g: Gateway, api: string, force: bool, recursive: bool, raw: bool,
                       net: Net)
    requires CacheTells(s, decode, g) && (api == API_OPERATION ==> HonestNet(decode, g, net))
    ensures CacheTells(PollOutcome(s, api, force, recursive, raw, net).0, decode, g)
    decreases !recursive
  {
    if GoesOut(s, api, force, raw) {
      var s1 := Exchanged(s, api, net.first);
      assert SameItems(s1, s);
      if Expired(recursive, net.first) {
        var s2 := AfterLogin(s1, net);
        assert SameItems(s2, s);
        PollKeepsCache(s2, decode, g, api, force, true, raw, net.(first := net.second));
        SettledKeepsCache(s2, decode, g, api, raw, net.first);
      } else {
        SettledKeepsCache(s1, decode, g, api, raw, net.first);
      }
    } else {
      NothingGoesOut(s, api, force, recursive, raw, net);
    }
  }

  ghost predicate SameItems(s': State, s: State) { s'.items == s.items && s'.urls == s.urls }

  /** A post removes entries if it ends without error, and leaves them if not. */
  lemma PostKeepsCache(s: State, decode: Decoder, g: Gateway, api: string, recursive: bool, raw: bool, net: Net)
    ensures var (s', res) := PostOutcome(s, api, recursive, raw, net);
            && (CacheTells(s, decode, g) ==> CacheTells(s', decode, g))
            && (res.Ok? && api == API_OPERATION ==> CacheTells(s', decode, g))
            && (res.Err? ==> s'.items == s.items)
    decreases !recursive
  {
    var s0 := Later(s, net.first.elapsed);
    if Expired(recursive, net.first) {
      PostKeepsCache(AfterLogin(s0, net), decode, g, api, true, raw, net.(first := net.second));
    }
    var s' := PostOutcome(s, api, recursive, raw, net).0;
    forall raw' ensures CacheTells(s, decode, g) ==> EntryTells(s'.items, decode, g, raw') {
      assert CacheTells(s, decode, g) ==> EntryTells(s.items, decode, g, raw');
    }
  }

  /** The gateway carried the write out, but the client was told of an error. */
  predicate IsLost(w: World, decode: Decoder, op: Op) {
    op.Set? && Possible(w, decode, op)
    && var (w', sent, ok) := Write(w, decode, op.level, op.mode, op.x); w'.gateway != w.gateway && !ok
  }

  /** A write that ends without error. */
  predicate Succeeds(w: World, decode: Decoder, op: Op) {
    op.Set? && Possible(w, decode, op) && Write(w, decode, op.level, op.mode, op.x).2
  }

  lemma StepKeepsCache(w: World, decode: Decoder, op: Op)
    requires (CacheTells(w.client, decode, w.gateway) && !IsLost(w, decode, op)) || Succeeds(w, decode, op)
    ensures var w' := Step(w, decode, op); CacheTells(w'.client, decode, w'.gateway)
  {
    if Possible(w, decode, op) {
      match op
      case Look(api, force, recursive, raw, net) =>
        PollKeepsCache(w.client, decode, w.gateway, api, force, recursive, AsRaw(api, raw), net);
      case Set(level, mode, x) => SetKeepsCache(w, decode, level, mode, x);
      case PostElsewhere(api, recursive, raw, net) =>
        PostKeepsCache(w.client, decode, w.gateway, api, recursive, raw, net);
      case Pause(d) => LaterKeepsCache(w.client, decode, w.gateway, d);
    }
  }

  lemma LaterKeepsCache(s: State, decode: Decoder, g: Gateway, d: nat)
    requires CacheTells(s, decode, g)
    ensures CacheTells(Later(s, d), decode, g)
  {
    forall raw ensures EntryTells(Later(s, d).items, decode, g, raw) {
      assert EntryTells(s.items, decode, g, raw);
    }
  }

  /** The two reads before the post. */
  lemma ReadsKeepCache(w: World, decode: Decoder, level: Option<real>, mode: Option<string>, x: Exchange)
    requires HonestNet(decode, w.gateway, x.read) && CacheTells(w.client, decode, w.gateway)
    ensures var s := AfterRead(w, decode, level, mode, x).0;
            CacheTells(s, decode, w.gateway) && CacheTells(AfterDin(s, x), decode, w.gateway)
  {
    PollKeepsCache(w.client, decode, w.gateway, API_OPERATION, true, false, true, x.read);
    StatusIsElsewhere();
    PollKeepsCache(AfterRead(w, decode, level, mode, x).0, decode, w.gateway, API_STATUS, false, false, true, x.din);
  }

  lemma StatusIsElsewhere()
    ensures API_STATUS != API_OPERATION && !(RAW_PREFIX <= API_OPERATION) && API_OPERATION != API_DEVICES_VITALS
  {
    assert |API_STATUS| == 11 && |API_OPERATION| == 14 && |API_DEVICES_VITALS| == 19;
    assert API_OPERATION[0] != RAW_PREFIX[0];
  }

  lemma SetKeepsCache(w: World, decode: Decoder, level: Option<real>, mode: Option<string>, x: Exchange)
    requires Possible(w, decode, Set(level, mode, x))
    requires CacheTells(w.client, decode, w.gateway) || Write(w, decode, level, mode, x).2
    ensures var (w', sent, ok) := Write(w, decode, level, mode, x);
            ok || w'.gateway == w.gateway ==> CacheTells(w'.client, decode, w'.gateway)
  {
    var s := AfterRead(w, decode, level, mode, x).0;
    var w' := Write(w, decode, level, mode, x).0;
    if CacheTells(w.client, decode, w.gateway) {
      ReadsKeepCache(w, decode, level, mode, x);
    }
    PostKeepsCache(AfterDin(s, x), decode, w'.gateway, API_OPERATION, false, false, x.post);
  }

  /** From the `k`-th operation on, no write was lost. */
  ghost predicate NoneLost(w: World, decode: Decoder, ops: seq<Op>, k: nat) {
    forall j: nat :: k <= j < |ops| ==> !IsLost(Run(w, decode, ops[..j]), decode, ops[j])
  }

  lemma NoneLostInPrefix(w: World, decode: Decoder, ops: seq<Op>, k: nat)
    requires k < |ops| && NoneLost(w, decode, ops, k)
    ensures NoneLost(w, decode, ops[..|ops| - 1], k) && ops[..|ops| - 1][..k] == ops[..k]
  {
    assert forall j: nat :: j < |ops| ==> ops[..|ops| - 1][..j] == ops[..j];
  }

  lemma {:induction false} CacheTellsAfter(w: World, decode: Decoder, ops: seq<Op>, k: nat)
    requires k <= |ops| && NoneLost(w, decode, ops, k)
    requires var before := Run(w, decode, ops[..k]);
             CacheTells(before.client, decode, before.gateway) || (k < |ops| && Succeeds(before, decode, ops[k]))
    ensures var after := Run(w, decode, ops); CacheTells(after.client, decode, after.gateway)
  {
    var n := |ops| - 1;
    if k == |ops| {
      assert ops[..k] == ops;
    } else {
      if k < n {
        NoneLostInPrefix(w, decode, ops, k);
        CacheTellsAfter(w, decode, ops[..n], k);
      }
      StepKeepsCache(Run(w, decode, ops[..n]), decode, ops[n]);
    }
  }

  /** Once a write of reserve or mode has ended without error, every later poll of the
      operation endpoint, cached or forced, raw or decoded, answers with the state
      that the gateway then has, through all polls, waits and writes that follow, as
      long as no write is lost. Nothing is assumed of what went before. */
  lemma LaterReadsTellState(w: World, decode: Decoder, ops: seq<Op>, k: nat, force: bool, recursive: bool, raw: bool,
                            net: Net)
    requires k < |ops| && Succeeds(Run(w, decode, ops[..k]), decode, ops[k]) && NoneLost(w, decode, ops, k)
    requires HonestNet(decode, Run(w, decode, ops).gateway, net)
    ensures var after := Run(w, decode, ops);
            var res := LocalClient.Poll(after.client, API_OPERATION, force, recursive, raw, net).1;
            res.Ok? ==> ContentTells(decode, after.gateway, raw, res.value)
  {
    CacheTellsAfter(w, decode, ops, k);
    var after := Run(w, decode, ops);
    assert |API_OPERATION| != |API_DEVICES_VITALS|;
    AnswerIsTold(after.client, decode, after.gateway, force, recursive, raw, net);
  }

  /** The writes of this run set the reserve only. */
  predicate OnlyReserves(ops: seq<Op>) {
    forall i :: 0 <= i < |ops| && ops[i].Set? ==> ops[i].level.Some? && ops[i].mode.None?
  }

  predicate OnlyModes(ops: seq<Op>) {
    forall i :: 0 <= i < |ops| && ops[i].Set? ==> ops[i].level.None? && Given(ops[i].mode)
  }

  /** However many reserves are set, and whatever is lost or refused on the way, the
      mode of the gateway stays as it was; and the other way round. */
  lemma {:induction false} WritesOfOneFieldKeepTheOther(w: World, decode: Decoder, ops: seq<Op>)
    requires HasModes(w) && (OnlyReserves(ops) || OnlyModes(ops))
    ensures HasModes(Run(w, decode, ops))
    ensures OnlyReserves(ops) ==> Run(w, decode, ops).gateway.mode == w.gateway.mode
    ensures OnlyModes(ops) ==> Run(w, decode, ops).gateway.reserve == w.gateway.reserve
  {
    if ops != [] {
      var before, op := Run(w, decode, ops[..|ops| - 1]), ops[|ops| - 1];
      WritesOfOneFieldKeepTheOther(w, decode, ops[..|ops| - 1]);
      if op.Set? && Possible(before, decode, op) {
        SetLeavesOtherField(before, decode, op.level, op.mode, op.x);
      }
    }
  }

  /** What an unforced poll says after a write: the state of the gateway, except exactly
      when the write was lost and the cache still holds an answer in the representation
      asked for. This is for every write, of one field, both or none, however long its
      exchanges took, and every wait after it. */
  lemma ReadAfterWrite(w: World, decode: Decoder, op: Op, wait: nat, recursive: bool, raw: bool, net: Net)
    requires op.Set? && Possible(w, decode, op) && CacheTells(w.client, decode, w.gateway)
    requires HonestNet(decode, Step(w, decode, op).gateway, net)
    ensures var w' := Step(w, decode, op);
            var s' := Later(w'.client, wait);
            var res := LocalClient.Poll(s', API_OPERATION, false, recursive, raw, net).1;
            (res.Ok? ==> ContentTells(decode, w'.gateway, raw, res.value))
            <==> !(IsLost(w, decode, op) && Lookup(s'.items, KeyFor(API_OPERATION, raw), s'.now, None).PositiveHit?)
  {
    var w' := Step(w, decode, op);
    var s' := Later(w'.client, wait);
    StatusIsElsewhere();
    SetKeepsCache(w, decode, op.level, op.mode, op.x);
    if IsLost(w, decode, op) {
      LostLeavesOldEntry(w, decode, op, raw);
      if Lookup(s'.items, KeyFor(API_OPERATION, raw), s'.now, None).PositiveHit? {
        var content := s'.items[KeyFor(API_OPERATION, raw)].entry.value;
        assert LocalClient.Poll(s', API_OPERATION, false, recursive, raw, net).1 == Ok(content);
        if ContentTells(decode, w'.gateway, raw, content) {
          OneContentTellsOneState(decode, w.gateway, w'.gateway, raw, content);
        }
      } else {
        AnswerIsTold(s', decode, w'.gateway, false, recursive, raw, net);
      }
    } else {
      assert EntryTells(w'.client.items, decode, w'.gateway, raw);
      AnswerIsTold(s', decode, w'.gateway, false, recursive, raw, net);
    }
  }

  /** After a lost write, what is cached is still the state before it. */
  lemma LostLeavesOldEntry(w: World, decode: Decoder, op: Op, raw: bool)
    requires IsLost(w, decode, op) && CacheTells(w.client, decode, w.gateway)
    ensures EntryTells(Step(w, decode, op).client.items, decode, w.gateway, raw)
  {
    var s := AfterRead(w, decode, op.level, op.mode, op.x).0;
    ReadsKeepCache(w, decode, op.level, op.mode, op.x);
    PostKeepsCache(AfterDin(s, op.x), decode, w.gateway, API_OPERATION, false, false, op.x.post);
    assert EntryTells(AfterDin(s, op.x).items, decode, w.gateway, raw);
  }

  /** And something is cached, whatever was before, when the lost write had to read the
      other field back: its raw answer, for as long as it lives. */
  lemma LostWriteIsNotSeen(w: World, decode: Decoder, op: Op, wait: nat, recursive: bool, net: Net)
    requires IsLost(w, decode, op) && op.level.Some? != Given(op.mode)
    requires var s := AfterRead(w, decode, op.level, op.mode, op.x).0;
             Step(w, decode, op).client.now + wait <= s.now + s.ttl
    ensures var s' := Later(Step(w, decode, op).client, wait);
            var res := LocalClient.Poll(s', API_OPERATION, false, recursive, true, net).1;
            res.Ok? && ContentTells(decode, w.gateway, true, res.value)
  {
    var x := op.x;
    var s := AfterRead(w, decode, op.level, op.mode, x).0;
    AnswerIsTold(w.client, decode, w.gateway, true, false, true, x.read);
    ForcedAnswerIsKept(w.client, x.read);
    StatusIsElsewhere();
    OtherPollLeavesAlone(s, API_OPERATION, API_STATUS, false, false, true, x.din);
    assert SameEntry(s.items, AfterDin(s, x).items, KeyFor(API_OPERATION, true));
    PostKeepsCache(AfterDin(s, x), decode, w.gateway, API_OPERATION, false, false, x.post);
  }

  lemma ForcedAnswerIsKept(s: State, net: Net)
    ensures var (s', res) := PollOutcome(s, API_OPERATION, true, false, true, net);
            var key := KeyFor(API_OPERATION, true);
            && s'.ttl == s.ttl
            && (res.Ok? ==> key in s'.items && s'.items[key] == Item(Positive(s'.now, res.value), s'.now + s.ttl))
  {
    PollKeepsFixed(s, API_OPERATION, true, false, true, net);
    if GoesOut(s, API_OPERATION, true, true) {
      if PollOutcome(s, API_OPERATION, true, false, true, net).1.Ok? {
        PutByAnswer(s, API_OPERATION, true, false, true, net);
      }
    } else {
      NothingGoesOut(s, API_OPERATION, true, false, true, net);
    }
  }
}
