/**
 The Redis replay guard: set-if-absent with an expiry.

 `throughExpiry` says whether an entry still counts at the very instant it expires.
 */
module ReplayGuards {
  import opened Results
  import opened Clock

  datatype Expiry = Never | At(time: int)

  type Entries = map<string, Expiry>

  /** What became of a command sent to the store. */
  datatype Delivery = Answered | Refused | AnswerLost

  predicate Alive(e: Entries, key: string, now: int, throughExpiry: bool)
  {
    key in e && (e[key].Never? || now < e[key].time || (throughExpiry && now == e[key].time))
  }

  /** SETNX with an expiry. */
  function SetIfAbsent(e: Entries, key: string, expiry: Expiry, now: int, throughExpiry: bool): (Entries, bool)
  {
    if Alive(e, key, now, throughExpiry) then (e, false) else (e[key := expiry], true)
  }

  /** What the client library sends of a lifetime: whole milliseconds, rounded down but to no less than one. */
  function Kept(ttl: int): int {
    if 0 < ttl < MILLISECOND then MILLISECOND else ttl - ttl % MILLISECOND
  }

  /** To the client library a lifetime of zero is none at all, and so is minus one, which keeps what there is. */
  function ExpiryOf(ttl: int, now: int): Expiry {
    if ttl == 0 || ttl == -1 then Never else At(now + Kept(ttl))
  }

  /** The store refuses any other negative lifetime. */
  predicate Unkeepable(ttl: int) {
    ttl < -1
  }

  /** The store and the caller's view after one FirstUse; an unanswered command is an error to the caller. */
  function FirstUseEffect(e: Entries, key: string, ttl: int, now: int, throughExpiry: bool, sent: Delivery)
    : (Entries, Result<bool, ()>)
  {
    var (e', first) := SetIfAbsent(e, key, ExpiryOf(ttl, now), now, throughExpiry);
    if Unkeepable(ttl) then (e, Err(()))
    else match sent
      case Answered => (e', Ok(first))
      case Refused => (e, Err(()))
      case AnswerLost => (e', Err(()))
  }

  function Key(prefix: string, hash: string): string {
    prefix + ":initdata:" + hash
  }

  /** Different hashes never share an entry. */
  lemma KeyIsInjective(prefix: string, a: string, b: string)
    requires Key(prefix, a) == Key(prefix, b)
    ensures a == b
  {
    var n := |prefix + ":initdata:"|;
    assert Key(prefix, a)[n..] == a && Key(prefix, b)[n..] == b;
  }

  /** One FirstUse with any lifetime: who is told to be first, what is remembered, and until when. */
  lemma FirstUseAnswers(e: Entries, key: string, ttl: int, now: int, throughExpiry: bool, sent: Delivery)
    ensures var (e', r) := FirstUseEffect(e, key, ttl, now, throughExpiry, sent);
            var seen := key in e && (e[key].Never? || now < e[key].time || (throughExpiry && now == e[key].time));
            var until := if ttl == 0 || ttl == -1 then Never
                         else if ttl < 1_000_000 then At(now + 1_000_000)
                         else At(now + ttl / 1_000_000 * 1_000_000);
            && (sent == Refused || ttl < -1 ==> e' == e && r == Err(()))
            && (sent != Refused && ttl >= -1 ==>
                  && e' == (if seen then e else e[key := until])
                  && r == (if sent == AnswerLost then Err(()) else Ok(!seen)))
  {
  }

  class ReplayGuard {
    const prefix: string
    const throughExpiry: bool
    var entries: Entries

    constructor (prefix: string, throughExpiry: bool)
      ensures this.prefix == (if prefix == "" then "replay" else prefix)
      ensures this.throughExpiry == throughExpiry && entries == map[]
    {
      this.prefix := if prefix == "" then "replay" else prefix;
      this.throughExpiry := throughExpiry;
      entries := map[];
    }

    method FirstUse(hash: string, ttl: int, now: int, sent: Delivery) returns (r: Result<bool, ()>)
      modifies this
      ensures (entries, r) == FirstUseEffect(old(entries), Key(prefix, hash), ttl, now, throughExpiry, sent)
    {
      var key := Key(prefix, hash);
      if sent == Refused || Unkeepable(ttl) {
        return Err(());
      }
      var first := !Alive(entries, key, now, throughExpiry);
      if first {
        entries := entries[key := ExpiryOf(ttl, now)];
      }
      r := if sent == AnswerLost then Err(()) else Ok(first);
    }
  }
}

/**
 Verification of a signed Mini App payload.

 Hashing, percent-decoding, number and JSON parsing are library code: they enter as
 the functions of a `Library`, about which nothing is assumed.
 */
module InitData {
  import opened Results
  import opened Int64
  import opened Clock
  import opened Identifiers
  import opened CheckString
  import opened ReplayGuards

  datatype User = User(id: int, isBot: bool, firstName: string, lastName: string, username: string,
                       languageCode: string, isPremium: bool, photoURL: string)

  datatype Data = Data(user: User, authDate: int, queryID: string, chatType: string, chatID: int,
                       startParam: string, hash: string)

  datatype Error =
    | Malformed | MissingHash | InvalidSignature | MissingAuthDate | Expired | FutureAuthDate
    | MissingUser | Replayed | GuardUnavailable

  datatype Library = Library(
    parseQuery: string -> Option<seq<(string, string)>>,
    hmac: (string, string) -> string,
    decodeHex: string -> Option<string>,
    parseInt: string -> Option<int>,
    parseUser: string -> Option<User>)

  /** A configured verifier: the derived key, the acceptance window and its tolerance. */
  datatype Config = Config(lib: Library, secretKey: string, ttl: int, clockSkew: int)

  /** The defaults of NewVerifier. */
  function Configure(lib: Library, botToken: string, ttl: int, clockSkew: int): (r: Option<Config>)
    ensures r.None? <==> botToken == ""
    ensures r.Some? ==> r.value.secretKey == lib.hmac("WebAppData", botToken)
    ensures r.Some? && ttl > 0 ==> r.value.ttl == ttl
    ensures r.Some? && ttl <= 0 ==> r.value.ttl == 86_400 * SECOND
    ensures r.Some? && clockSkew > 0 ==> r.value.clockSkew == clockSkew
    ensures r.Some? && clockSkew <= 0 ==> r.value.clockSkew == 60 * SECOND
    ensures r.Some? && ttl <= MAX_INT64 && clockSkew <= MAX_INT64 ==> Durations(r.value)
  {
    if botToken == "" then None
    else Some(Config(lib, lib.hmac("WebAppData", botToken),
                     if ttl <= 0 then DAY else ttl,
                     if clockSkew <= 0 then MINUTE else clockSkew))
  }

  /** How much longer than the acceptance window a guard entry lives. */
  const GUARD_MARGIN: int := MINUTE

  /** The checks that do not look at the clock, up to and including the timestamp. */
  ghost function Authenticate(c: Config, raw: string): Result<(Values, int), Error>
  {
    if TrimSpace(raw) == "" then Err(Malformed)
    else if c.lib.parseQuery(raw).None? then Err(Malformed)
    else
      var v := Collect(c.lib.parseQuery(raw).value);
      if Get(v, "hash") == "" then Err(MissingHash)
      else if c.lib.decodeHex(Get(v, "hash"))
              != Some(c.lib.hmac(c.secretKey, Canonical(SignedFields(v)))) then Err(InvalidSignature)
      else if Get(v, "auth_date") == "" then Err(MissingAuthDate)
      else match c.lib.parseInt(Get(v, "auth_date"))
        case None => Err(Malformed)
        case Some(unix) => Ok((v, unix * SECOND))
  }

  /** The identity and remaining fields of an authentic, fresh payload. */
  function Extract(lib: Library, v: Values, authDate: int): Result<Data, Error>
  {
    if Get(v, "user") == "" then Err(MissingUser)
    else match lib.parseUser(Get(v, "user"))
      case None => Err(Malformed)
      case Some(user) =>
        if user.id <= 0 then Err(MissingUser)
        else
          var chat := Get(v, "chat_instance");
          var chatID := if chat == "" then None else lib.parseInt(chat);
          Ok(Data(user, authDate, Get(v, "query_id"), Get(v, "chat_type"),
                  if chatID.Some? then chatID.value else 0, Get(v, "start_param"), Get(v, "hash")))
  }

  /** Everything Verify decides before it consults the guard. */
  ghost function BeforeGuard(c: Config, raw: string, now: int): Result<Data, Error>
  {
    match Authenticate(c, raw)
    case Err(e) => Err(e)
    case Ok((v, authDate)) =>
      if Sub(now, authDate) > c.ttl then Err(Expired)
      else if Sub(authDate, now) > c.clockSkew then Err(FutureAuthDate)
      else Extract(c.lib, v, authDate)
  }

  /** A payload some instant would let through to the guard, with what it says. */
  ghost predicate Genuine(c: Config, raw: string, d: Data)
  {
    match Authenticate(c, raw)
    case Err(_) => false
    case Ok((v, authDate)) => Extract(c.lib, v, authDate) == Ok(d)
  }

  /** The durations NewVerifier leaves: positive 64-bit integers. */
  predicate Durations(c: Config) {
    0 < c.ttl <= MAX_INT64 && 0 < c.clockSkew <= MAX_INT64
  }

  /** From the skew before to the lifetime after the timestamp; the largest duration is no limit at all. */
  predicate InWindow(ttl: int, clockSkew: int, authDate: int, now: int)
  {
    && (clockSkew == MAX_INT64 || authDate - clockSkew <= now)
    && (ttl == MAX_INT64 || now <= authDate + ttl)
  }

  /**
   The acceptance window: a payload reaches the guard exactly when it is genuine and
   the clock is in its window. What is then known about it does not depend on the clock.
   */
  lemma AcceptanceWindow(c: Config, raw: string, now: int, d: Data)
    requires Durations(c)
    ensures BeforeGuard(c, raw, now) == Ok(d)
       <==> Genuine(c, raw, d) && InWindow(c.ttl, c.clockSkew, d.authDate, now)
  {
    hide TrimSpace, Collect, SignedFields, Canonical, Get;
  }

  lemma GenuineIsUnique(c: Config, raw: string, d1: Data, d2: Data)
    requires Genuine(c, raw, d1) && Genuine(c, raw, d2)
    ensures d1 == d2
  {
  }

  /** The decoded parameters of a payload. */
  function ValuesOf(lib: Library, raw: string): Values {
    if lib.parseQuery(raw).None? then map[] else Collect(lib.parseQuery(raw).value)
  }

  function SignedOf(lib: Library, raw: string): Fields {
    SignedFields(ValuesOf(lib, raw))
  }

  lemma SignedValue(v: Values, k: string)
    requires Signed(k)
    ensures Get(v, k) == (if k in SignedFields(v) then SignedFields(v)[k] else "")
  {
  }

  /** Payloads with the same signed fields say the same, up to the text of the hash. */
  lemma SameFieldsSameData(c: Config, raw: string, raw': string, d: Data, d': Data)
    requires Genuine(c, raw, d) && Genuine(c, raw', d') && SignedOf(c.lib, raw) == SignedOf(c.lib, raw')
    ensures d' == d.(hash := d'.hash)
  {
    hide TrimSpace, Collect, SignedFields, Canonical, Get;
    SameSignedValues(c.lib, raw, raw');
  }

  lemma SameSignedValues(lib: Library, raw: string, raw': string)
    requires SignedOf(lib, raw) == SignedOf(lib, raw')
    ensures forall k :: Signed(k) ==> Get(ValuesOf(lib, raw), k) == Get(ValuesOf(lib, raw'), k)
  {
    forall k | Signed(k)
      ensures Get(ValuesOf(lib, raw), k) == Get(ValuesOf(lib, raw'), k)
    {
      SignedValue(ValuesOf(lib, raw), k);
      SignedValue(ValuesOf(lib, raw'), k);
    }
  }

  /** Another text of the same signature over the same signed fields makes a genuine payload too. */
  lemma OtherHashTextIsGenuine(c: Config, raw: string, raw': string, d: Data, hash': string)
    requires Genuine(c, raw, d) && SignedOf(c.lib, raw') == SignedOf(c.lib, raw)
    requires TrimSpace(raw') != "" && c.lib.parseQuery(raw').Some?
    requires hash' != "" && Get(ValuesOf(c.lib, raw'), "hash") == hash'
    requires c.lib.decodeHex(hash') == c.lib.decodeHex(d.hash)
    ensures Genuine(c, raw', d.(hash := hash'))
  {
    hide TrimSpace, Collect, SignedFields, Canonical, Get;
    SameSignedValues(c.lib, raw, raw');
  }

  /** The lifetime of a guard entry, in 64-bit arithmetic. */
  function Lifetime(ttl: int): int {
    Wrap(ttl + GUARD_MARGIN)
  }

  /** Entries and result of a Verify that reads the clock at `now` and whose command the store runs at `guardTime`. */
  ghost function VerifyCall(c: Config, prefix: string, throughExpiry: bool, e: Entries, raw: string, now: int,
                            guardTime: int, sent: Delivery): (Entries, Result<Data, Error>)
  {
    match BeforeGuard(c, raw, now)
    case Err(x) => (e, Err(x))
    case Ok(d) =>
      var (e', first) := FirstUseEffect(e, Key(prefix, d.hash), Lifetime(c.ttl), guardTime, throughExpiry, sent);
      (e', match first
           case Err(_) => Err(GuardUnavailable)
           case Ok(b) => if b then Ok(d) else Err(Replayed))
  }

  // ---- The answer, spelled out over the reference reading of the parameters ----

  /** The earliest value of a name among the parameters, or the empty string. */
  function Field(params: seq<(string, string)>, name: string): string {
    if name in FirstValues(params) then FirstValues(params)[name] else ""
  }

  lemma FieldIsGet(params: seq<(string, string)>, name: string)
    ensures Get(Collect(params), name) == Field(params, name)
  {
    CollectKeepsFirstValue(params);
  }

  lemma FieldsAreGet(params: seq<(string, string)>)
    ensures forall name :: Get(Collect(params), name) == Field(params, name)
    ensures SignedFields(Collect(params)) == FirstValues(params) - {"hash", "signature"}
  {
    hide Get, Field;
    forall name
      ensures Get(Collect(params), name) == Field(params, name)
    {
      FieldIsGet(params, name);
    }
    SignedFieldsAreFirstValues(params);
  }

  /** The hash field is the hex text of the HMAC over the text of all fields but `hash` and `signature`. */
  ghost predicate SignatureOk(c: Config, params: seq<(string, string)>)
  {
    c.lib.decodeHex(Field(params, "hash"))
      == Some(c.lib.hmac(c.secretKey, Canonical(FirstValues(params) - {"hash", "signature"})))
  }

  /** What comes before the clock is looked at, in order. */
  lemma AuthenticationIsSpelled(c: Config, raw: string)
    ensures TrimSpace(raw) == "" || c.lib.parseQuery(raw) == None ==> Authenticate(c, raw) == Err(Malformed)
    ensures TrimSpace(raw) != "" && c.lib.parseQuery(raw).Some? ==>
              var params := c.lib.parseQuery(raw).value;
              var date := c.lib.parseInt(Field(params, "auth_date"));
              && (Field(params, "hash") == "" ==> Authenticate(c, raw) == Err(MissingHash))
              && (Field(params, "hash") != "" && !SignatureOk(c, params) ==>
                    Authenticate(c, raw) == Err(InvalidSignature))
              && (Field(params, "hash") != "" && SignatureOk(c, params) ==>
                    && (Field(params, "auth_date") == "" ==> Authenticate(c, raw) == Err(MissingAuthDate))
                    && (Field(params, "auth_date") != "" && date == None ==> Authenticate(c, raw) == Err(Malformed))
                    && (Field(params, "auth_date") != "" && date.Some? ==>
                          Authenticate(c, raw) == Ok((Collect(params), date.value * 1_000_000_000))))
  {
    hide TrimSpace, Collect, SignedFields, Canonical, Get, Field;
    if c.lib.parseQuery(raw).Some? {
      FieldsAreGet(c.lib.parseQuery(raw).value);
    }
  }

  /** What is read from a payload that is authentic and fresh: the identity is that of the `user` field. */
  lemma ExtractionIsSpelled(lib: Library, params: seq<(string, string)>, authDate: int)
    ensures var user := lib.parseUser(Field(params, "user"));
            var chat := lib.parseInt(Field(params, "chat_instance"));
            var r := Extract(lib, Collect(params), authDate);
            && (Field(params, "user") == "" ==> r == Err(MissingUser))
            && (Field(params, "user") != "" && user == None ==> r == Err(Malformed))
            && (Field(params, "user") != "" && user.Some? && user.value.id <= 0 ==> r == Err(MissingUser))
            && (Field(params, "user") != "" && user.Some? && user.value.id > 0 ==>
                  && r.Ok? && r.value.user == user.value && r.value.authDate == authDate
                  && r.value.hash == Field(params, "hash") && r.value.queryID == Field(params, "query_id")
                  && r.value.chatType == Field(params, "chat_type")
                  && r.value.startParam == Field(params, "start_param")
                  && r.value.chatID == (if Field(params, "chat_instance") == "" || chat == None then 0 else chat.value))
  {
    hide Collect, Get, Field;
    FieldsAreGet(params);
  }

  /** A payload whose checks up to the timestamp pass, with that timestamp. */
  ghost predicate AuthenticAt(c: Config, raw: string, params: seq<(string, string)>, authDate: int)
  {
    && TrimSpace(raw) != "" && c.lib.parseQuery(raw) == Some(params)
    && Field(params, "hash") != "" && SignatureOk(c, params) && Field(params, "auth_date") != ""
    && exists unix :: c.lib.parseInt(Field(params, "auth_date")) == Some(unix) && authDate == unix * 1_000_000_000
  }

  /**
   Whoever gets past the checks is the person of the earliest `user` field of an authentic
   payload in its window, with a positive identifier, and everything else reported about
   them is a field of that payload; and every such payload gets past them.
   */
  lemma VerifyIdentifies(c: Config, raw: string, now: int, d: Data)
    requires Durations(c)
    ensures BeforeGuard(c, raw, now) == Ok(d) <==>
              exists params ::
                var chat := c.lib.parseInt(Field(params, "chat_instance"));
                && AuthenticAt(c, raw, params, d.authDate) && InWindow(c.ttl, c.clockSkew, d.authDate, now)
                && Field(params, "user") != "" && d.user.id > 0
                && c.lib.parseUser(Field(params, "user")) == Some(d.user)
                && d.hash == Field(params, "hash") && d.queryID == Field(params, "query_id")
                && d.chatType == Field(params, "chat_type") && d.startParam == Field(params, "start_param")
                && d.chatID == (if Field(params, "chat_instance") == "" || chat == None then 0 else chat.value)
  {
    hide TrimSpace, Field, SignatureOk, InWindow, Collect;
    AuthenticationIsSpelled(c, raw);
    AcceptanceWindow(c, raw, now, d);
    if c.lib.parseQuery(raw).Some? {
      ExtractionIsSpelled(c.lib, c.lib.parseQuery(raw).value, d.authDate);
    }
  }

  /** The refusals of an authentic payload, in order. */
  lemma VerifyRefuses(c: Config, raw: string, now: int, params: seq<(string, string)>, authDate: int)
    requires Durations(c) && AuthenticAt(c, raw, params, authDate)
    ensures var user := c.lib.parseUser(Field(params, "user"));
            var r := BeforeGuard(c, raw, now);
            var late := c.ttl != MAX_INT64 && now > authDate + c.ttl;
            var early := c.clockSkew != MAX_INT64 && authDate - c.clockSkew > now;
            && (late ==> r == Err(Expired))
            && (!late && early ==> r == Err(FutureAuthDate))
            && (!late && !early && (Field(params, "user") == "" || (user.Some? && user.value.id <= 0)) ==>
                  r == Err(MissingUser))
            && (!late && !early && Field(params, "user") != "" && user == None ==> r == Err(Malformed))
  {
    hide TrimSpace, Field, SignatureOk, Collect;
    AuthenticationIsSpelled(c, raw);
    ExtractionIsSpelled(c.lib, params, authDate);
  }

  /** The guard's part: who is turned away, and what is remembered for how long under which key. */
  lemma GuardAnswers(c: Config, prefix: string, throughExpiry: bool, e: Entries, raw: string, now: int, at: int,
                     sent: Delivery)
    requires Durations(c)
    ensures var before := BeforeGuard(c, raw, now);
            var (e', r) := VerifyCall(c, prefix, throughExpiry, e, raw, now, at, sent);
            && (before.Err? ==> e' == e && r == before)
            && (before.Ok? ==>
                  var d := before.value;
                  var key := prefix + ":initdata:" + d.hash;
                  var seen := key in e && (e[key].Never? || at < e[key].time || (throughExpiry && at == e[key].time));
                  var life := c.ttl + 60_000_000_000;
                  && (life > MAX_INT64 ==> e' == e && r == Err(GuardUnavailable))
                  && (sent == Refused ==> e' == e && r == Err(GuardUnavailable))
                  && (life <= MAX_INT64 && sent != Refused ==>
                        && e' == (if seen then e else e[key := At(at + (life - life % 1_000_000))])
                        && r == (if sent == AnswerLost then Err(GuardUnavailable)
                                 else if seen then Err(Replayed) else Ok(d))))
  {
    hide BeforeGuard;
    var life := c.ttl + GUARD_MARGIN;
    assert life > MAX_INT64 ==> Lifetime(c.ttl) < -1;
    assert life <= MAX_INT64 ==> Lifetime(c.ttl) == life;
  }

  class Verifier {
    const config: Config
    const guard: ReplayGuard?

    constructor (config: Config, guard: ReplayGuard?)
      ensures this.config == config && this.guard == guard
    {
      this.config := config;
      this.guard := guard;
    }

    /**
     Verify. `now` is the reading of the verifier's clock, `guardTime` the instant at
     which the store runs the command, `sent` what becomes of that command.
     */
    method Verify(raw: string, now: int, guardTime: int, sent: Delivery) returns (r: Result<Data, Error>)
      modifies guard
      ensures guard == null ==> r == BeforeGuard(config, raw, now)
      ensures guard != null ==>
                (guard.entries, r) == VerifyCall(config, guard.prefix, guard.throughExpiry, old(guard.entries), raw,
                                                 now, guardTime, sent)
    {
      hide TrimSpace, Collect, SignedFields, Canonical, Get, FirstUseEffect, Key, Lifetime;
      var lib := config.lib;
      if TrimSpace(raw) == "" {
        return Err(Malformed);
      }
      var params := lib.parseQuery(raw);
      if params.None? {
        return Err(Malformed);
      }
      var values := Collect(params.value);
      var providedHash := Get(values, "hash");
      if providedHash == "" {
        return Err(MissingHash);
      }

      var checkString := BuildCheckString(values);
      var expected := lib.hmac(config.secretKey, checkString);
      var provided := lib.decodeHex(providedHash);
      if provided.None? || provided.value != expected {
        return Err(InvalidSignature);
      }

      var authDateRaw := Get(values, "auth_date");
      if authDateRaw == "" {
        return Err(MissingAuthDate);
      }
      var authUnix := lib.parseInt(authDateRaw);
      if authUnix.None? {
        return Err(Malformed);
      }
      var authDate := authUnix.value * SECOND;
      if Sub(now, authDate) > config.ttl {
        return Err(Expired);
      }
      if Sub(authDate, now) > config.clockSkew {
        return Err(FutureAuthDate);
      }

      var data := Extract(lib, values, authDate);
      if data.Err? {
        return data;
      }
      if guard != null {
        var first := guard.FirstUse(providedHash, Lifetime(config.ttl), guardTime, sent);
        if first.Err? {
          return Err(GuardUnavailable);
        }
        if !first.value {
          return Err(Replayed);
        }
      }
      return data;
    }
  }
}

/**
 Runs of any number of replicas that share one guard and one clock that never goes back.

 A presentation is two steps: `Begin` reads the clock and does everything up to the
 guard, `Finish` runs the set-if-absent. Between the two anything may happen. `delay`
 bounds the time from the one to the other; a presentation that outlives it never
 finishes. `screen` is what is decided before the guard; `Deployment` puts Verify's own
 checks there.
 */
module ReplayRuns {
  import opened Results
  import opened Int64
  import opened Clock
  import opened Identifiers
  import opened CheckString
  import opened ReplayGuards
  import opened InitData

  datatype System = System(screen: (string, int) -> Result<Data, Error>, ttl: int, clockSkew: int,
                           delay: nat, prefix: string, throughExpiry: bool)

  ghost function Deployment(c: Config, delay: nat, prefix: string, throughExpiry: bool): System
  {
    System((raw, now) => BeforeGuard(c, raw, now), c.ttl, c.clockSkew, delay, prefix, throughExpiry)
  }

  datatype Pending = Pending(raw: string, data: Data, readAt: int)

  /** A set-if-absent that reached the store, and whether the caller was told it was first. */
  datatype Use = Use(raw: string, data: Data, readAt: int, at: int, accepted: bool)

  datatype State = State(clock: int, entries: Entries, pending: map<nat, Pending>, uses: seq<Use>)

  datatype Step =
    | Tick(elapsed: nat)
    | Begin(id: nat, raw: string)
    | Finish(id: nat, sent: Delivery)

  function Start(clock: int): State {
    State(clock, map[], map[], [])
  }

  function Apply(y: System, s: State, step: Step): State
  {
    match step
    case Tick(elapsed) => s.(clock := s.clock + elapsed)
    case Begin(id, raw) => BeginEffect(y, s, id, raw)
    case Finish(id, sent) => FinishEffect(y, s, id, sent)
  }

  function BeginEffect(y: System, s: State, id: nat, raw: string): State
  {
    if id in s.pending then s
    else match y.screen(raw, s.clock)
      case Err(_) => s
      case Ok(d) => s.(pending := s.pending[id := Pending(raw, d, s.clock)])
  }

  function FinishEffect(y: System, s: State, id: nat, sent: Delivery): State
  {
    if id !in s.pending || s.clock > s.pending[id].readAt + y.delay then s
    else
      var p := s.pending[id];
      var (e, r) := FirstUseEffect(s.entries, Key(y.prefix, p.data.hash), Lifetime(y.ttl),
                                   s.clock, y.throughExpiry, sent);
      State(s.clock, e, s.pending - {id},
            if sent == Refused || Unkeepable(Lifetime(y.ttl)) then s.uses
            else s.uses + [Use(p.raw, p.data, p.readAt, s.clock, r == Ok(true))])
  }

  function Exec(y: System, s: State, steps: seq<Step>): State
  {
    if steps == [] then s
    else Apply(y, Exec(y, s, steps[..|steps| - 1]), steps[|steps| - 1])
  }

  /** How long an entry lives in the store. */
  function EntryLife(y: System): int {
    Kept(Lifetime(y.ttl))
  }

  // ---- The property and its exact condition ----

  /** No two acceptances are of the same raw payload. */
  ghost predicate AtMostOnce(s: State)
  {
    forall i, j :: 0 <= i < j < |s.uses| && s.uses[i].accepted && s.uses[j].accepted
      ==> s.uses[i].raw != s.uses[j].raw
  }

  /** No two acceptances share both the guard key and the timestamp. */
  ghost predicate AtMostOncePerKey(s: State)
  {
    forall i, j :: 0 <= i < j < |s.uses| && s.uses[i].accepted && s.uses[j].accepted ==>
      s.uses[i].data.hash != s.uses[j].data.hash || s.uses[i].data.authDate != s.uses[j].data.authDate
  }

  /** Skew plus delay fits in the margin by which a guard entry, kept in milliseconds, outlives the window. */
  predicate MarginSuffices(y: System)
  {
    var needed := y.clockSkew + y.delay + y.ttl % MILLISECOND;
    if y.throughExpiry then needed <= GUARD_MARGIN else needed < GUARD_MARGIN
  }

  /** The guard's lifetime does not fit 64 bits: the store refuses every entry, and nothing is accepted. */
  predicate Overflows(y: System) {
    y.ttl + GUARD_MARGIN > MAX_INT64
  }

  /** Whether a payload passes depends on the clock only through its window, and what it says not at all. */
  ghost predicate Windowed(y: System)
  {
    && 0 < y.ttl <= MAX_INT64 && 0 < y.clockSkew <= MAX_INT64
    && forall raw, t, u :: y.screen(raw, t).Ok? ==>
         && (y.screen(raw, u).Ok? <==> InWindow(y.ttl, y.clockSkew, y.screen(raw, t).value.authDate, u))
         && (y.screen(raw, u).Ok? ==> y.screen(raw, u) == y.screen(raw, t))
  }

  lemma DeploymentIsWindowed(c: Config, delay: nat, prefix: string, throughExpiry: bool)
    requires Durations(c)
    ensures Windowed(Deployment(c, delay, prefix, throughExpiry))
  {
    var y := Deployment(c, delay, prefix, throughExpiry);
    forall raw, t, u | y.screen(raw, t).Ok?
      ensures y.screen(raw, u).Ok? <==> InWindow(y.ttl, y.clockSkew, y.screen(raw, t).value.authDate, u)
      ensures y.screen(raw, u).Ok? ==> y.screen(raw, u) == y.screen(raw, t)
    {
      var d := BeforeGuard(c, raw, t).value;
      AcceptanceWindow(c, raw, t, d);
      AcceptanceWindow(c, raw, u, d);
      if BeforeGuard(c, raw, u).Ok? {
        var d' := BeforeGuard(c, raw, u).value;
        AcceptanceWindow(c, raw, u, d');
        GenuineIsUnique(c, raw, d, d');
      }
    }
  }

  // ---- What every step keeps ----

  ghost predicate PendingOk(y: System, clock: int, p: Pending)
  {
    y.screen(p.raw, p.readAt) == Ok(p.data) && p.readAt <= clock
  }

  ghost predicate UseOk(y: System, clock: int, u: Use)
  {
    y.screen(u.raw, u.readAt) == Ok(u.data) && u.readAt <= u.at <= u.readAt + y.delay && u.at <= clock
  }

  /** A use left an entry, and nothing shortens that of an accepted one. */
  ghost predicate Remembered(y: System, e: Entries, u: Use)
  {
    var key := Key(y.prefix, u.data.hash);
    key in e && (u.accepted ==> e[key].Never? || e[key].time >= u.at + EntryLife(y))
  }

  /** A later acceptance under the same guard key found the earlier entry lapsed. */
  ghost predicate Spaced(y: System, u: Use, w: Use)
  {
    u.accepted && w.accepted && u.data.hash == w.data.hash ==>
      var lapse := u.at + EntryLife(y);
      w.at > lapse || (w.at == lapse && !y.throughExpiry)
  }

  ghost predicate UsedBy(y: System, uses: seq<Use>, key: string)
  {
    exists i :: 0 <= i < |uses| && Key(y.prefix, uses[i].data.hash) == key
  }

  ghost predicate Inv(y: System, s: State)
  {
    && (forall id <- s.pending :: PendingOk(y, s.clock, s.pending[id]))
    && (forall i :: 0 <= i < |s.uses| ==> UseOk(y, s.clock, s.uses[i]))
    && (forall i :: 0 <= i < |s.uses| ==> Remembered(y, s.entries, s.uses[i]))
    && (forall i, j :: 0 <= i < j < |s.uses| ==> Spaced(y, s.uses[i], s.uses[j]))
    && (forall key <- s.entries :: UsedBy(y, s.uses, key))
    && (Unkeepable(Lifetime(y.ttl)) ==> s.uses == [])
  }

  lemma UsedByStays(y: System, uses: seq<Use>, u: Use, key: string)
    requires UsedBy(y, uses, key) || key == Key(y.prefix, u.data.hash)
    ensures UsedBy(y, uses + [u], key)
  {
    if UsedBy(y, uses, key) {
      var i :| 0 <= i < |uses| && Key(y.prefix, uses[i].data.hash) == key;
      assert (uses + [u])[i] == uses[i];
    } else {
      assert (uses + [u])[|uses|] == u;
    }
  }

  lemma FinishKeepsInv(y: System, s: State, id: nat, sent: Delivery)
    requires Inv(y, s)
    ensures Inv(y, FinishEffect(y, s, id, sent))
  {
    hide Key, Kept, Lifetime;
    var s' := FinishEffect(y, s, id, sent);
    var n := |s.uses|;
    if |s'.uses| == n + 1 {
      var u := s'.uses[n];
      var key := Key(y.prefix, u.data.hash);
      assert s'.uses == s.uses + [u];
      assert PendingOk(y, s.clock, s.pending[id]);
      assert UseOk(y, s'.clock, u) && Remembered(y, s'.entries, u);
      forall i | 0 <= i < n
        ensures UseOk(y, s'.clock, s'.uses[i])
        ensures Remembered(y, s'.entries, s'.uses[i]) && Spaced(y, s'.uses[i], u)
      {
        assert s'.uses[i] == s.uses[i];
        assert UseOk(y, s.clock, s.uses[i]) && Remembered(y, s.entries, s.uses[i]);
      }
      forall k | k in s'.entries
        ensures UsedBy(y, s'.uses, k)
      {
        assert k == key || k in s.entries;
        UsedByStays(y, s.uses, u, k);
      }
    }
  }

  lemma StepKeepsInv(y: System, s: State, step: Step)
    requires Inv(y, s)
    ensures Inv(y, Apply(y, s, step))
  {
    match step
    case Tick(elapsed) =>
    case Begin(id, raw) =>
    case Finish(id, sent) =>
      FinishKeepsInv(y, s, id, sent);
  }

  lemma {:induction false} RunKeepsInv(y: System, clock: int, steps: seq<Step>)
    ensures Inv(y, Exec(y, Start(clock), steps))
  {
    if steps != [] {
      var n := |steps| - 1;
      RunKeepsInv(y, clock, steps[..n]);
      StepKeepsInv(y, Exec(y, Start(clock), steps[..n]), steps[n]);
    }
  }

  lemma LifeOfEntry(y: System)
    requires 0 < y.ttl && !Overflows(y)
    ensures Lifetime(y.ttl) == y.ttl + GUARD_MARGIN
    ensures EntryLife(y) == y.ttl + GUARD_MARGIN - y.ttl % MILLISECOND
  {
    assert GUARD_MARGIN == 60_000 * MILLISECOND;
  }

  // ---- Safety ----

  /** Two acceptances under one guard key and one timestamp leave no room for the margin. */
  lemma NoSecondAcceptance(y: System, clock: int, u: Use, w: Use)
    requires Windowed(y) && MarginSuffices(y) && !Overflows(y)
    requires UseOk(y, clock, u) && UseOk(y, clock, w) && Spaced(y, u, w)
    requires u.accepted && w.accepted
    ensures u.data.hash != w.data.hash || u.data.authDate != w.data.authDate
    ensures u.raw != w.raw
  {
    LifeOfEntry(y);
    assert y.screen(u.raw, u.readAt).Ok? && y.screen(w.raw, w.readAt).Ok?;
    assert InWindow(y.ttl, y.clockSkew, u.data.authDate, u.readAt);
    assert InWindow(y.ttl, y.clockSkew, w.data.authDate, w.readAt);
  }

  /**
   With enough margin, no run accepts a payload twice, even after its guard entry has
   lapsed. More than the raw text is protected: two acceptances never share both the
   guard key and the timestamp.
   */
  lemma ReplaySafety(y: System, clock: int, steps: seq<Step>)
    requires Windowed(y) && (MarginSuffices(y) || Overflows(y))
    ensures AtMostOnce(Exec(y, Start(clock), steps)) && AtMostOncePerKey(Exec(y, Start(clock), steps))
  {
    RunKeepsInv(y, clock, steps);
    var s := Exec(y, Start(clock), steps);
    forall i, j | 0 <= i < j < |s.uses| && s.uses[i].accepted && s.uses[j].accepted
      ensures s.uses[i].data.hash != s.uses[j].data.hash || s.uses[i].data.authDate != s.uses[j].data.authDate
      ensures s.uses[i].raw != s.uses[j].raw
    {
      NoSecondAcceptance(y, s.clock, s.uses[i], s.uses[j]);
    }
  }

  // ---- Necessity ----

  lemma ExecSnoc(y: System, s: State, steps: seq<Step>, step: Step)
    ensures Exec(y, s, steps + [step]) == Apply(y, Exec(y, s, steps), step)
  {
    assert (steps + [step])[..|steps|] == steps;
  }

  lemma {:induction false} ExecAppend(y: System, s: State, a: seq<Step>, b: seq<Step>)
    ensures Exec(y, s, a + b) == Exec(y, Exec(y, s, a), b)
  {
    if b == [] {
      assert a + b == a;
    } else {
      var n := |b| - 1;
      assert a + b == (a + b[..n]) + [b[n]];
      ExecSnoc(y, s, a + b[..n], b[n]);
      ExecAppend(y, s, a, b[..n]);
    }
  }

  lemma ExecOne(y: System, s: State, a: Step)
    ensures Exec(y, s, [a]) == Apply(y, s, a)
  {
    assert [a] == [] + [a];
    ExecSnoc(y, s, [], a);
  }

  lemma ExecThree(y: System, s: State, a: Step, b: Step, c: Step)
    ensures Exec(y, s, [a, b, c]) == Apply(y, Apply(y, Apply(y, s, a), b), c)
  {
    assert [a, b, c] == [a, b] + [c] && [a, b] == [a] + [b] && [a] == [] + [a];
    ExecSnoc(y, s, [a, b], c);
    ExecSnoc(y, s, [a], b);
    ExecSnoc(y, s, [], a);
  }

  /** An uninterrupted presentation that finds no live entry is accepted. */
  lemma Presentation(y: System, s: State, id: nat, raw: string, wait: nat, d: Data)
    requires id !in s.pending && wait <= y.delay && y.screen(raw, s.clock) == Ok(d) && Lifetime(y.ttl) > 0
    requires !Alive(s.entries, Key(y.prefix, d.hash), s.clock + wait, y.throughExpiry)
    ensures var s' := Exec(y, s, [Begin(id, raw), Tick(wait), Finish(id, Answered)]);
            && s'.clock == s.clock + wait && s'.pending == s.pending
            && s'.entries == s.entries[Key(y.prefix, d.hash) := At(s.clock + wait + EntryLife(y))]
            && s'.uses == s.uses + [Use(raw, d, s.clock, s.clock + wait, true)]
  {
    ExecThree(y, s, Begin(id, raw), Tick(wait), Finish(id, Answered));
    var s1 := BeginEffect(y, s, id, raw);
    assert s1 == s.(pending := s.pending[id := Pending(raw, d, s.clock)]);
    assert s1.pending - {id} == s.pending;
  }

  /** Without the margin, a payload that passes at all can be accepted twice. */
  lemma ReplayBreach(y: System, raw: string, t: int)
    requires Windowed(y) && !MarginSuffices(y) && !Overflows(y) && y.screen(raw, t).Ok?
    ensures exists clock, steps :: !AtMostOnce(Exec(y, Start(clock), steps))
  {
    hide Exec, Key;
    var d := y.screen(raw, t).value;
    var t0, t1 := d.authDate - y.clockSkew, d.authDate + y.ttl;
    assert InWindow(y.ttl, y.clockSkew, d.authDate, t0) && InWindow(y.ttl, y.clockSkew, d.authDate, t1);
    assert y.screen(raw, t0) == Ok(d) && y.screen(raw, t1) == Ok(d);
    LifeOfEntry(y);
    hide Windowed, InWindow, Lifetime, EntryLife;
    var first: seq<Step> := [Begin(0, raw), Tick(0), Finish(0, Answered)];
    var pause: seq<Step> := [Tick(y.clockSkew + y.ttl)];
    var second: seq<Step> := [Begin(1, raw), Tick(y.delay), Finish(1, Answered)];
    var s0 := Start(t0);
    Presentation(y, s0, 0, raw, 0, d);
    var s1 := Exec(y, s0, first);
    ExecOne(y, s1, Tick(y.clockSkew + y.ttl));
    var s2 := Exec(y, s1, pause);
    assert s2 == s1.(clock := t1);
    Presentation(y, s2, 1, raw, y.delay, d);
    var s3 := Exec(y, s2, second);
    assert s3.uses[0].raw == s3.uses[1].raw;
    ExecAppend(y, s0, first, pause);
    ExecAppend(y, s0, first + pause, second);
    assert !AtMostOnce(Exec(y, Start(t0), first + pause + second));
  }

  /**
   At-most-once acceptance over all runs holds exactly when skew plus delay fits the
   margin, or the lifetime overflows and nothing is accepted at all.
   */
  lemma ReplayProtectionIsExact(c: Config, delay: nat, prefix: string, throughExpiry: bool, raw: string, d: Data)
    requires Durations(c) && Genuine(c, raw, d)
    ensures var y := Deployment(c, delay, prefix, throughExpiry);
            (forall clock, steps :: AtMostOnce(Exec(y, Start(clock), steps))) <==> MarginSuffices(y) || Overflows(y)
  {
    var y := Deployment(c, delay, prefix, throughExpiry);
    DeploymentIsWindowed(c, delay, prefix, throughExpiry);
    if MarginSuffices(y) || Overflows(y) {
      forall clock, steps
        ensures AtMostOnce(Exec(y, Start(clock), steps))
      {
        ReplaySafety(y, clock, steps);
      }
    } else {
      AcceptanceWindow(c, raw, d.authDate, d);
      ReplayBreach(y, raw, d.authDate);
    }
  }

  // ---- The signed fields rather than the raw text ----

  /** No two acceptances are of these signed fields, however the payloads around them are written. */
  ghost predicate AtMostOnceFor(lib: Library, s: State, m: Fields)
  {
    forall i, j :: 0 <= i < j < |s.uses| && s.uses[i].accepted && s.uses[j].accepted ==>
      !(SignedOf(lib, s.uses[i].raw) == m && SignedOf(lib, s.uses[j].raw) == m)
  }

  ghost predicate AtMostOncePerFields(lib: Library, s: State) {
    forall m :: AtMostOnceFor(lib, s, m)
  }

  ghost predicate GenuineWith(c: Config, m: Fields, raw: string, d: Data) {
    Genuine(c, raw, d) && SignedOf(c.lib, raw) == m
  }

  /** Genuine payloads with these signed fields carry the same hash text. */
  ghost predicate OneHashFor(c: Config, m: Fields) {
    forall raw, raw', d, d' :: GenuineWith(c, m, raw, d) && GenuineWith(c, m, raw', d') ==> d.hash == d'.hash
  }

  ghost predicate OneHashText(c: Config) {
    forall m :: OneHashFor(c, m)
  }

  /** That is so when a signature has only one text. */
  lemma InjectiveDecodingSuffices(c: Config)
    requires forall a, b :: c.lib.decodeHex(a).Some? && c.lib.decodeHex(a) == c.lib.decodeHex(b) ==> a == b
    ensures OneHashText(c)
  {
    hide Collect, SignedFields, Canonical, Get;
  }

  /** Two texts of one signature over the same fields are both accepted, one right after the other. */
  lemma SecondHashTextPasses(c: Config, y: System, raw: string, raw': string, d: Data, d': Data)
    requires Durations(c) && y == Deployment(c, y.delay, y.prefix, y.throughExpiry) && !Overflows(y)
    requires Genuine(c, raw, d) && Genuine(c, raw', d') && SignedOf(c.lib, raw) == SignedOf(c.lib, raw')
    requires d.hash != d'.hash
    ensures exists clock, steps :: !AtMostOnceFor(c.lib, Exec(y, Start(clock), steps), SignedOf(c.lib, raw))
  {
    hide Genuine, SignedOf, BeforeGuard, Exec;
    SameFieldsSameData(c, raw, raw', d, d');
    AcceptanceWindow(c, raw, d.authDate, d);
    AcceptanceWindow(c, raw', d.authDate, d');
    var first: seq<Step> := [Begin(0, raw), Tick(0), Finish(0, Answered)];
    var second: seq<Step> := [Begin(1, raw'), Tick(0), Finish(1, Answered)];
    var s0 := Start(d.authDate);
    Presentation(y, s0, 0, raw, 0, d);
    var s1 := Exec(y, s0, first);
    assert Key(y.prefix, d.hash) != Key(y.prefix, d'.hash) by {
      if Key(y.prefix, d.hash) == Key(y.prefix, d'.hash) {
        KeyIsInjective(y.prefix, d.hash, d'.hash);
      }
    }
    Presentation(y, s1, 1, raw', 0, d');
    ExecAppend(y, s0, first, second);
    var s2 := Exec(y, s0, first + second);
    assert s2.uses[0].raw == raw && s2.uses[1].raw == raw';
    assert !AtMostOnceFor(c.lib, Exec(y, Start(d.authDate), first + second), SignedOf(c.lib, raw));
  }

  ghost predicate AllGenuine(c: Config, s: State) {
    forall i :: 0 <= i < |s.uses| ==> Genuine(c, s.uses[i].raw, s.uses[i].data)
  }

  lemma UsesAreGenuine(c: Config, y: System, clock: int, steps: seq<Step>)
    requires Durations(c) && y == Deployment(c, y.delay, y.prefix, y.throughExpiry)
    ensures AllGenuine(c, Exec(y, Start(clock), steps))
  {
    hide Genuine, BeforeGuard, Exec;
    RunKeepsInv(y, clock, steps);
    var s := Exec(y, Start(clock), steps);
    forall i | 0 <= i < |s.uses|
      ensures Genuine(c, s.uses[i].raw, s.uses[i].data)
    {
      assert UseOk(y, s.clock, s.uses[i]);
      AcceptanceWindow(c, s.uses[i].raw, s.uses[i].readAt, s.uses[i].data);
    }
  }

  lemma OneTextIsOneKey(c: Config, s: State, m: Fields)
    requires AllGenuine(c, s) && AtMostOncePerKey(s) && OneHashFor(c, m)
    ensures AtMostOnceFor(c.lib, s, m)
  {
    hide Genuine, SignedOf;
    forall i, j | 0 <= i < j < |s.uses| && s.uses[i].accepted && s.uses[j].accepted
      ensures !(SignedOf(c.lib, s.uses[i].raw) == m && SignedOf(c.lib, s.uses[j].raw) == m)
    {
      var u, w := s.uses[i], s.uses[j];
      assert SignedOf(c.lib, u.raw) == m ==> GenuineWith(c, m, u.raw, u.data);
      assert SignedOf(c.lib, w.raw) == m ==> GenuineWith(c, m, w.raw, w.data);
      if SignedOf(c.lib, u.raw) == m && SignedOf(c.lib, w.raw) == m {
        SameFieldsSameData(c, u.raw, w.raw, u.data, w.data);
        assert false;
      }
    }
  }

  lemma OneTextIsProtected(c: Config, y: System, clock: int, steps: seq<Step>, m: Fields)
    requires Durations(c) && y == Deployment(c, y.delay, y.prefix, y.throughExpiry)
    requires OneHashFor(c, m) && MarginSuffices(y)
    ensures AtMostOnceFor(c.lib, Exec(y, Start(clock), steps), m)
  {
    DeploymentIsWindowed(c, y.delay, y.prefix, y.throughExpiry);
    hide *;
    ReplaySafety(y, clock, steps);
    UsesAreGenuine(c, y, clock, steps);
    OneTextIsOneKey(c, Exec(y, Start(clock), steps), m);
  }

  /**
   The guard's key is the hash as sent, so what is accepted at most once is a text. The
   signed fields themselves are accepted at most once over all runs exactly when, besides
   the margin, their signature has a single accepted text.
   */
  lemma FieldProtectionIsExact(c: Config, delay: nat, prefix: string, throughExpiry: bool, raw: string, d: Data)
    requires Durations(c) && Genuine(c, raw, d)
    ensures var y := Deployment(c, delay, prefix, throughExpiry);
            (forall clock, steps :: AtMostOncePerFields(c.lib, Exec(y, Start(clock), steps)))
              <==> Overflows(y) || (MarginSuffices(y) && OneHashText(c))
  {
    var y := Deployment(c, delay, prefix, throughExpiry);
    if Overflows(y) || (MarginSuffices(y) && OneHashText(c)) {
      forall clock, steps
        ensures AtMostOncePerFields(c.lib, Exec(y, Start(clock), steps))
      {
        FieldsAreProtected(c, y, clock, steps);
      }
    } else {
      FieldsAreExposed(c, y, raw, d);
    }
  }

  lemma FieldsAreProtected(c: Config, y: System, clock: int, steps: seq<Step>)
    requires Durations(c) && y == Deployment(c, y.delay, y.prefix, y.throughExpiry)
    requires Overflows(y) || (MarginSuffices(y) && OneHashText(c))
    ensures AtMostOncePerFields(c.lib, Exec(y, Start(clock), steps))
  {
    hide Exec, SignedOf, MarginSuffices, OneHashFor;
    if Overflows(y) {
      NothingIsUsed(y, clock, steps);
    } else {
      hide Deployment, AtMostOnceFor;
      forall m
        ensures AtMostOnceFor(c.lib, Exec(y, Start(clock), steps), m)
      {
        OneTextIsProtected(c, y, clock, steps, m);
      }
    }
  }

  lemma FieldsAreExposed(c: Config, y: System, raw: string, d: Data)
    requires Durations(c) && Genuine(c, raw, d) && y == Deployment(c, y.delay, y.prefix, y.throughExpiry)
    requires !Overflows(y) && !(MarginSuffices(y) && OneHashText(c))
    ensures exists clock, steps :: !AtMostOncePerFields(c.lib, Exec(y, Start(clock), steps))
  {
    hide *;
    if !MarginSuffices(y) {
      MarginExposes(c, y, raw, d);
    } else {
      HashExposes(c, y);
    }
  }

  lemma MarginExposes(c: Config, y: System, raw: string, d: Data)
    requires Durations(c) && Genuine(c, raw, d) && y == Deployment(c, y.delay, y.prefix, y.throughExpiry)
    requires !Overflows(y) && !MarginSuffices(y)
    ensures exists clock, steps :: !AtMostOncePerFields(c.lib, Exec(y, Start(clock), steps))
  {
    DeploymentIsWindowed(c, y.delay, y.prefix, y.throughExpiry);
    AcceptanceWindow(c, raw, d.authDate, d);
    hide *;
    assert y.screen(raw, d.authDate) == Ok(d) by {
      ScreenIsBeforeGuard(c, y, raw, d.authDate);
    }
    ReplayBreach(y, raw, d.authDate);
    var clock, steps :| !AtMostOnce(Exec(y, Start(clock), steps));
    SameTextSameFields(c.lib, Exec(y, Start(clock), steps));
  }

  lemma ScreenIsBeforeGuard(c: Config, y: System, raw: string, now: int)
    requires y == Deployment(c, y.delay, y.prefix, y.throughExpiry)
    ensures y.screen(raw, now) == BeforeGuard(c, raw, now)
  {
  }

  lemma HashExposes(c: Config, y: System)
    requires Durations(c) && y == Deployment(c, y.delay, y.prefix, y.throughExpiry)
    requires !Overflows(y) && !OneHashText(c)
    ensures exists clock, steps :: !AtMostOncePerFields(c.lib, Exec(y, Start(clock), steps))
  {
    var m, r1, r2, d1, d2 := TwoHashTexts(c);
    assert Genuine(c, r1, d1) && Genuine(c, r2, d2) && SignedOf(c.lib, r1) == SignedOf(c.lib, r2);
    hide *;
    SecondHashTextPasses(c, y, r1, r2, d1, d2);
    var clock, steps :| !AtMostOnceFor(c.lib, Exec(y, Start(clock), steps), SignedOf(c.lib, r1));
    OneIsEnough(c.lib, Exec(y, Start(clock), steps), SignedOf(c.lib, r1));
  }

  lemma TwoHashTexts(c: Config) returns (m: Fields, r1: string, r2: string, d1: Data, d2: Data)
    requires !OneHashText(c)
    ensures GenuineWith(c, m, r1, d1) && GenuineWith(c, m, r2, d2) && d1.hash != d2.hash
  {
    hide GenuineWith;
    m :| !OneHashFor(c, m);
    r1, r2, d1, d2 :| GenuineWith(c, m, r1, d1) && GenuineWith(c, m, r2, d2) && d1.hash != d2.hash;
  }

  lemma OneIsEnough(lib: Library, s: State, m: Fields)
    requires !AtMostOnceFor(lib, s, m)
    ensures !AtMostOncePerFields(lib, s)
  {
  }

  lemma SameTextSameFields(lib: Library, s: State)
    requires !AtMostOnce(s)
    ensures !AtMostOncePerFields(lib, s)
  {
    hide SignedOf;
    var i, j :| 0 <= i < j < |s.uses| && s.uses[i].accepted && s.uses[j].accepted && s.uses[i].raw == s.uses[j].raw;
    assert !AtMostOnceFor(lib, s, SignedOf(lib, s.uses[i].raw));
  }

  lemma NothingIsUsed(y: System, clock: int, steps: seq<Step>)
    requires Overflows(y) && 0 < y.ttl <= MAX_INT64
    ensures Exec(y, Start(clock), steps).uses == []
  {
    RunKeepsInv(y, clock, steps);
  }

  // ---- One payload ----

  /** Hex decoding ignores letter case and nothing else. */
  ghost predicate DecodesHex(lib: Library)
  {
    forall a, b :: lib.decodeHex(a).Some? ==> (lib.decodeHex(b) == lib.decodeHex(a) <==> CaseVariant(a, b))
  }

  /** Some payload carries the signed fields of this one with this hash text. */
  ghost predicate Carried(lib: Library, raw: string, hash: string)
  {
    exists raw' ::
      && TrimSpace(raw') != "" && lib.parseQuery(raw').Some? && SignedOf(lib, raw') == SignedOf(lib, raw)
      && Get(ValuesOf(lib, raw'), "hash") == hash
  }

  predicate Letter(c: char) {
    'a' <= c <= 'z' || 'A' <= c <= 'Z'
  }

  /** The other case of a letter. */
  function Flip(c: char): char
    requires Letter(c)
  {
    if 'a' <= c <= 'z' then c - 'a' + 'A' else c - 'A' + 'a'
  }

  lemma OtherWriting(hash: string, i: nat) returns (other: string)
    requires i < |hash| && Letter(hash[i])
    ensures other != hash && other != "" && CaseVariant(hash, other)
  {
    other := hash[i := Flip(hash[i])];
    assert other[i] != hash[i];
  }

  lemma NoOtherWriting(hash: string, other: string)
    requires CaseVariant(hash, other) && forall c <- hash :: !Letter(c)
    ensures other == hash
  {
    forall i | 0 <= i < |hash|
      ensures hash[i] == other[i]
    {
      assert hash[i] in hash && SameLetter(hash[i], other[i]);
    }
  }

  lemma GenuineDecodes(c: Config, raw: string, d: Data)
    requires Genuine(c, raw, d)
    ensures c.lib.decodeHex(d.hash) == Some(c.lib.hmac(c.secretKey, Canonical(SignedOf(c.lib, raw))))
    ensures c.lib.parseQuery(raw).Some?
  {
    hide TrimSpace, Collect, SignedFields, Canonical, Get;
  }

  lemma WithoutLetters(c: Config, raw: string, d: Data)
    requires Genuine(c, raw, d) && DecodesHex(c.lib) && forall x <- d.hash :: !Letter(x)
    ensures OneHashFor(c, SignedOf(c.lib, raw))
  {
    hide Genuine, SignedOf, Letter, CaseVariant;
    GenuineDecodes(c, raw, d);
    forall raw', d' | Genuine(c, raw', d') && SignedOf(c.lib, raw') == SignedOf(c.lib, raw)
      ensures d'.hash == d.hash
    {
      GenuineDecodes(c, raw', d');
      NoOtherWriting(d.hash, d'.hash);
    }
  }

  /**
   One payload, with a margin that suffices: its signed fields are accepted at most once over
   all runs exactly when its hash is written without a letter.
   */
  lemma LettersDecide(c: Config, delay: nat, prefix: string, throughExpiry: bool, raw: string, d: Data)
    requires Durations(c) && Genuine(c, raw, d) && DecodesHex(c.lib)
    requires forall hash :: hash != "" ==> Carried(c.lib, raw, hash)
    requires var y := Deployment(c, delay, prefix, throughExpiry); !Overflows(y) && MarginSuffices(y)
    ensures var y := Deployment(c, delay, prefix, throughExpiry);
            (forall clock, steps :: AtMostOnceFor(c.lib, Exec(y, Start(clock), steps), SignedOf(c.lib, raw)))
              <==> forall x <- d.hash :: !Letter(x)
  {
    hide Genuine, SignedOf, Exec, Letter, MarginSuffices, Durations, CaseVariant, TrimSpace;
    var y := Deployment(c, delay, prefix, throughExpiry);
    if forall x <- d.hash :: !Letter(x) {
      WithoutLetters(c, raw, d);
      forall clock, steps
        ensures AtMostOnceFor(c.lib, Exec(y, Start(clock), steps), SignedOf(c.lib, raw))
      {
        OneTextIsProtected(c, y, clock, steps, SignedOf(c.lib, raw));
      }
    } else {
      var i :| 0 <= i < |d.hash| && Letter(d.hash[i]);
      var hash' := OtherWriting(d.hash, i);
      assert Carried(c.lib, raw, hash');
      var raw' :| TrimSpace(raw') != "" && c.lib.parseQuery(raw').Some? && SignedOf(c.lib, raw') == SignedOf(c.lib, raw)
                  && Get(ValuesOf(c.lib, raw'), "hash") == hash';
      GenuineDecodes(c, raw, d);
      OtherHashTextIsGenuine(c, raw, raw', d, hash');
      SecondHashTextPasses(c, y, raw, raw', d, d.(hash := hash'));
    }
  }

  // ---- An uninterrupted call is a run of its steps ----

  /** What the run keeps of a call: the entries, and one more use, accepted exactly when the call succeeds. */
  lemma VerifyCallIsRun(c: Config, y: System, s: State, id: nat, raw: string, wait: nat, sent: Delivery)
    requires y == Deployment(c, y.delay, y.prefix, y.throughExpiry) && id !in s.pending && wait <= y.delay
    ensures var s' := Exec(y, s, [Begin(id, raw), Tick(wait), Finish(id, sent)]);
            var (e, r) := VerifyCall(c, y.prefix, y.throughExpiry, s.entries, raw, s.clock, s.clock + wait, sent);
            && s'.clock == s.clock + wait && s'.entries == e && s'.pending == s.pending
            && (r.Ok? ==> s'.uses == s.uses + [Use(raw, r.value, s.clock, s.clock + wait, true)])
            && (r.Err? ==> s'.uses == s.uses
                           || (|s'.uses| == |s.uses| + 1 && s.uses <= s'.uses && !s'.uses[|s.uses|].accepted))
  {
    hide BeforeGuard, Exec;
    ExecThree(y, s, Begin(id, raw), Tick(wait), Finish(id, sent));
    assert y.screen(raw, s.clock) == BeforeGuard(c, raw, s.clock);
    var s1 := BeginEffect(y, s, id, raw);
    assert s1.pending - {id} == s.pending;
  }

  /**
   The default skew uses the whole margin: safe exactly without delay, with entries alive
   through expiry and a window of whole milliseconds.
   */
  lemma DefaultSkew(lib: Library, token: string, ttl: int, delay: nat, prefix: string, throughExpiry: bool)
    requires token != ""
    ensures MarginSuffices(Deployment(Configure(lib, token, ttl, 0).value, delay, prefix, throughExpiry))
       <==> delay == 0 && throughExpiry && (ttl <= 0 || ttl % MILLISECOND == 0)
  {
  }

  // ---- What cannot use a payload up ----

  /**
   Only a set-if-absent that reached the store occupies a guard entry, so presentations
   refused earlier cost nothing: as long as no use of this hash is on record, the next
   one that gets an answer is accepted.
   */
  lemma RejectedPresentationsCostNothing(y: System, clock: int, steps: seq<Step>, id: nat)
    requires !Unkeepable(Lifetime(y.ttl))
    requires var s := Exec(y, Start(clock), steps);
             && id in s.pending && s.clock <= s.pending[id].readAt + y.delay
             && forall i :: 0 <= i < |s.uses| ==> s.uses[i].data.hash != s.pending[id].data.hash
    ensures var s := Exec(y, Start(clock), steps);
            var p := s.pending[id];
            Exec(y, Start(clock), steps + [Finish(id, Answered)]).uses
              == s.uses + [Use(p.raw, p.data, p.readAt, s.clock, true)]
  {
    var s := Exec(y, Start(clock), steps);
    var key := Key(y.prefix, s.pending[id].data.hash);
    RunKeepsInv(y, clock, steps);
    forall i | 0 <= i < |s.uses|
      ensures Key(y.prefix, s.uses[i].data.hash) != key
    {
      if Key(y.prefix, s.uses[i].data.hash) == key {
        KeyIsInjective(y.prefix, s.uses[i].data.hash, s.pending[id].data.hash);
      }
    }
    assert !UsedBy(y, s.uses, key);
    ExecSnoc(y, Start(clock), steps, Finish(id, Answered));
  }
}
