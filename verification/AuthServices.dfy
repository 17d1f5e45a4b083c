/**
  Login and Refresh of gateway-go/internal/service/auth_service.go over the in-memory store and
  the two brute-force trackers.

  Clock readings, generated secrets and ids are arguments.  The speed test between two logins and
  the hash of refresh tokens are parameters of the service.
 */
module AuthServices {
  import opened BruteForce
  import opened Identifiers
  import opened MemoryStores
  import opened Octets
  import opened PasswordHash
  import opened Sessions
  import opened SlidingWindow
  import opened Wrappers

  const MINUTE: int := 60 * SECOND
  const IP_WINDOW: int := 5 * MINUTE
  const IP_THRESHOLD: int := 5
  const ACCOUNT_WINDOW: int := 15 * MINUTE
  const ACCOUNT_THRESHOLD: int := 8

  datatype SecurityEvent =
    | BruteForceIp(ip: Id, count: nat)
    | BruteForceAccount(email: Id, count: nat)
    | ImpossibleTravel(userId: Id)
    | RefreshTokenReuse(userId: Id, familyId: Id)

  datatype LoginRequest = LoginRequest(email: Id, password: string, lat: real, lon: real, ip: Id)

  /** The clock readings of a login: one for each tracker, and those of a successful login. */
  datatype LoginClock = LoginClock(ip: int, account: int, travel: int, lastLogin: int, issue: int)

  /** A login attempt whose password check completed. */
  datatype Attempt = Attempt(ip: Id, email: Id, verified: bool, ipAt: int, accountAt: int)

  // ---------------------------------------------------------------- alerts against the full history

  /** What an attempt means for its IP and for its account: a failure, or a reset by a verified login. */
  function IpMark(a: Attempt): Mark {
    if a.verified then Cleared else FailedAt(a.ipAt)
  }

  function AccountMark(a: Attempt): Mark {
    if a.verified then Cleared else FailedAt(a.accountAt)
  }

  /** The marks on one IP. */
  function IpMarks(attempts: seq<Attempt>, ip: Id): seq<Mark> {
    if attempts == [] then []
    else
      var a := attempts[|attempts| - 1];
      IpMarks(attempts[..|attempts| - 1], ip) + if a.ip == ip then [IpMark(a)] else []
  }

  function AccountMarks(attempts: seq<Attempt>, email: Id): seq<Mark> {
    if attempts == [] then []
    else
      var a := attempts[|attempts| - 1];
      AccountMarks(attempts[..|attempts| - 1], email) + if a.email == email then [AccountMark(a)] else []
  }

  /** The event for a list of kept failures, if there are enough of them. */
  function IpAlert(ip: Id, kept: seq<int>): seq<SecurityEvent> {
    if |kept| >= IP_THRESHOLD then [BruteForceIp(ip, |kept|)] else []
  }

  function AccountAlert(email: Id, kept: seq<int>): seq<SecurityEvent> {
    if |kept| >= ACCOUNT_THRESHOLD then [BruteForceAccount(email, |kept|)] else []
  }

  /** The failures for the IP since its last verified login, no older than the window at `now`. */
  function RecentIpFailures(attempts: seq<Attempt>, ip: Id, now: int): seq<int> {
    Since(Failures(IpMarks(attempts, ip)), now - IP_WINDOW)
  }

  function RecentAccountFailures(attempts: seq<Attempt>, email: Id, now: int): seq<int> {
    Since(Failures(AccountMarks(attempts, email)), now - ACCOUNT_WINDOW)
  }

  /** Attempt i failed from the IP in the five minutes before `now`, and no later one from it was verified. */
  ghost predicate IpCounts(attempts: seq<Attempt>, ip: Id, now: int, i: nat)
    requires i < |attempts|
  {
    && attempts[i].ip == ip && !attempts[i].verified && attempts[i].ipAt > now - 300_000_000_000
    && forall j | i < j < |attempts| && attempts[j].ip == ip :: !attempts[j].verified
  }

  ghost function FailedFromIp(attempts: seq<Attempt>, ip: Id, now: int): set<nat> {
    set i: nat | i < |attempts| && IpCounts(attempts, ip, now, i)
  }

  lemma {:induction false} IpCountsStep(attempts: seq<Attempt>, ip: Id, now: int)
    requires attempts != []
    ensures var n := |attempts| - 1;
            var a, before := attempts[n], FailedFromIp(attempts[..n], ip, now);
            FailedFromIp(attempts, ip, now) ==
            if a.ip != ip then before else if a.verified then {}
            else if a.ipAt > now - 300_000_000_000 then before + {n} else before
  {
    var n := |attempts| - 1;
    var p, a := attempts[..n], attempts[n];
    assert forall i | 0 <= i < n :: p[i] == attempts[i];
    forall i: nat | i < n
      ensures IpCounts(attempts, ip, now, i) <==> IpCounts(p, ip, now, i) && !(a.ip == ip && a.verified)
    {
    }
    assert IpCounts(attempts, ip, now, n) <==> a.ip == ip && !a.verified && a.ipAt > now - 300_000_000_000;
    hide IpCounts;
  }

  lemma {:induction false} IpFailuresStep(attempts: seq<Attempt>, ip: Id, now: int)
    requires attempts != []
    ensures var n := |attempts| - 1;
            var a, before := attempts[n], RecentIpFailures(attempts[..n], ip, now);
            |RecentIpFailures(attempts, ip, now)| ==
            if a.ip != ip then |before| else if a.verified then 0
            else |before| + if a.ipAt > now - 300_000_000_000 then 1 else 0
  {
    var n := |attempts| - 1;
    var p, a := attempts[..n], attempts[n];
    if a.ip != ip {
      assert IpMarks(attempts, ip) == IpMarks(p, ip);
    } else if !a.verified {
      var ms := IpMarks(p, ip);
      assert (ms + [FailedAt(a.ipAt)])[..|ms|] == ms;
      assert Failures(IpMarks(attempts, ip)) == Failures(ms) + [a.ipAt];
      SelectAppend(Failures(ms), ITSELF, a.ipAt, now - 300_000_000_000);
    }
  }

  lemma {:induction false} IpFailuresCounted(attempts: seq<Attempt>, ip: Id, now: int)
    ensures |RecentIpFailures(attempts, ip, now)| == |FailedFromIp(attempts, ip, now)|
  {
    if attempts != [] {
      IpFailuresCounted(attempts[..|attempts| - 1], ip, now);
      IpFailuresStep(attempts, ip, now);
      IpCountsStep(attempts, ip, now);
      hide RecentIpFailures, IpCounts;
    }
  }

  /** Attempt i failed on the account in the fifteen minutes before `now`, and no later one on it was verified. */
  ghost predicate AccountCounts(attempts: seq<Attempt>, email: Id, now: int, i: nat)
    requires i < |attempts|
  {
    && attempts[i].email == email && !attempts[i].verified && attempts[i].accountAt > now - 900_000_000_000
    && forall j | i < j < |attempts| && attempts[j].email == email :: !attempts[j].verified
  }

  ghost function FailedOnAccount(attempts: seq<Attempt>, email: Id, now: int): set<nat> {
    set i: nat | i < |attempts| && AccountCounts(attempts, email, now, i)
  }

  lemma {:induction false} AccountCountsStep(attempts: seq<Attempt>, email: Id, now: int)
    requires attempts != []
    ensures var n := |attempts| - 1;
            var a, before := attempts[n], FailedOnAccount(attempts[..n], email, now);
            FailedOnAccount(attempts, email, now) ==
            if a.email != email then before else if a.verified then {}
            else if a.accountAt > now - 900_000_000_000 then before + {n} else before
  {
    var n := |attempts| - 1;
    var p, a := attempts[..n], attempts[n];
    assert forall i | 0 <= i < n :: p[i] == attempts[i];
    forall i: nat | i < n
      ensures AccountCounts(attempts, email, now, i) <==>
              AccountCounts(p, email, now, i) && !(a.email == email && a.verified)
    {
    }
    assert AccountCounts(attempts, email, now, n) <==>
           a.email == email && !a.verified && a.accountAt > now - 900_000_000_000;
    hide AccountCounts;
  }

  lemma {:induction false} AccountFailuresStep(attempts: seq<Attempt>, email: Id, now: int)
    requires attempts != []
    ensures var n := |attempts| - 1;
            var a, before := attempts[n], RecentAccountFailures(attempts[..n], email, now);
            |RecentAccountFailures(attempts, email, now)| ==
            if a.email != email then |before| else if a.verified then 0
            else |before| + if a.accountAt > now - 900_000_000_000 then 1 else 0
  {
    var n := |attempts| - 1;
    var p, a := attempts[..n], attempts[n];
    if a.email != email {
      assert AccountMarks(attempts, email) == AccountMarks(p, email);
    } else if !a.verified {
      var ms := AccountMarks(p, email);
      assert (ms + [FailedAt(a.accountAt)])[..|ms|] == ms;
      assert Failures(AccountMarks(attempts, email)) == Failures(ms) + [a.accountAt];
      SelectAppend(Failures(ms), ITSELF, a.accountAt, now - 900_000_000_000);
    }
  }

  lemma {:induction false} AccountFailuresCounted(attempts: seq<Attempt>, email: Id, now: int)
    ensures |RecentAccountFailures(attempts, email, now)| == |FailedOnAccount(attempts, email, now)|
  {
    if attempts != [] {
      AccountFailuresCounted(attempts[..|attempts| - 1], email, now);
      AccountFailuresStep(attempts, email, now);
      AccountCountsStep(attempts, email, now);
      hide RecentAccountFailures, AccountCounts;
    }
  }

  /** At least five failures for the IP, at least eight for the account. */
  function HistoryAlerts(a: Attempt, ips: nat, accounts: nat): seq<SecurityEvent> {
    (if ips >= 5 then [BruteForceIp(a.ip, ips)] else [])
    + (if accounts >= 8 then [BruteForceAccount(a.email, accounts)] else [])
  }

  /** The last attempt left the last mark on its own IP and account. */
  lemma LastMarks(attempts: seq<Attempt>)
    requires attempts != []
    ensures var a := attempts[|attempts| - 1];
            var ips, accounts := IpMarks(attempts, a.ip), AccountMarks(attempts, a.email);
            && ips != [] && ips[|ips| - 1] == IpMark(a)
            && accounts != [] && accounts[|accounts| - 1] == AccountMark(a)
  {
  }

  /** What the last of the attempts, a failed one, publishes. */
  function Alerts(attempts: seq<Attempt>): seq<SecurityEvent>
    requires attempts != []
  {
    var a := attempts[|attempts| - 1];
    IpAlert(a.ip, Pruned(IP_WINDOW, IpMarks(attempts, a.ip)))
    + AccountAlert(a.email, Pruned(ACCOUNT_WINDOW, AccountMarks(attempts, a.email)))
  }

  /** No failure of the last attempt's IP that its window shows was ever out of a window. */
  ghost predicate IpInWindow(attempts: seq<Attempt>)
    requires attempts != []
  {
    var a := attempts[|attempts| - 1];
    NeverOutOfWindow(Failures(IpMarks(attempts, a.ip)), IP_WINDOW, a.ipAt - IP_WINDOW)
  }

  ghost predicate AccountInWindow(attempts: seq<Attempt>)
    requires attempts != []
  {
    var a := attempts[|attempts| - 1];
    NeverOutOfWindow(Failures(AccountMarks(attempts, a.email)), ACCOUNT_WINDOW, a.accountAt - ACCOUNT_WINDOW)
  }

  lemma {:induction false} IpKeptShows(attempts: seq<Attempt>)
    requires attempts != [] && !attempts[|attempts| - 1].verified
    ensures var a := attempts[|attempts| - 1];
            Shows(Pruned(IP_WINDOW, IpMarks(attempts, a.ip)), RecentIpFailures(attempts, a.ip, a.ipAt),
                  IpInWindow(attempts))
  {
    hide IpMarks, AccountMarks, Pruned, Failures, NeverOutOfWindow, Shows, Select;
    LastMarks(attempts);
    PrunedIsWindow(IP_WINDOW, IpMarks(attempts, attempts[|attempts| - 1].ip));
  }

  lemma {:induction false} AccountKeptShows(attempts: seq<Attempt>)
    requires attempts != [] && !attempts[|attempts| - 1].verified
    ensures var a := attempts[|attempts| - 1];
            Shows(Pruned(ACCOUNT_WINDOW, AccountMarks(attempts, a.email)),
                  RecentAccountFailures(attempts, a.email, a.accountAt), AccountInWindow(attempts))
  {
    hide IpMarks, AccountMarks, Pruned, Failures, NeverOutOfWindow, Shows, Select;
    LastMarks(attempts);
    PrunedIsWindow(ACCOUNT_WINDOW, AccountMarks(attempts, attempts[|attempts| - 1].email));
  }

  lemma AlertsAgree(a: Attempt, keptIps: seq<int>, ips: seq<int>, keptAccounts: seq<int>, accounts: seq<int>,
                    ipExact: bool, accountExact: bool)
    requires Shows(keptIps, ips, ipExact) && Shows(keptAccounts, accounts, accountExact)
    ensures IpAlert(a.ip, keptIps) + AccountAlert(a.email, keptAccounts) == HistoryAlerts(a, |ips|, |accounts|) <==>
            (ipExact || |ips| < 5) && (accountExact || |accounts| < 8)
    ensures |IpAlert(a.ip, keptIps) + AccountAlert(a.email, keptAccounts)| <= |HistoryAlerts(a, |ips|, |accounts|)|
  {
    var i, j := IpAlert(a.ip, keptIps), AccountAlert(a.email, keptAccounts);
    var m := if |ips| >= 5 then [BruteForceIp(a.ip, |ips|)] else [];
    var n := if |accounts| >= 8 then [BruteForceAccount(a.email, |accounts|)] else [];
    assert |keptIps| <= |ips| && |keptAccounts| <= |accounts|;
    if i + j == m + n {
      if |m| == 1 { assert (m + n)[0] == BruteForceIp(a.ip, |ips|) && |i| == 1 && (i + j)[0] == i[0]; }
      if |n| == 1 { assert (m + n)[|m|] == n[0] && |j| == 1 && (i + j)[|i|] == j[0]; }
    }
  }

  /**
    A failed login never raises more than the full history calls for: five failures in five minutes
    for the IP since its last verified login, eight in fifteen for the account.  It raises exactly
    that, with the history's counts, if and only if for each of the two the history calls for
    nothing or none of the failures it counts was ever out of the window.
   */
  lemma {:induction false} AlertsFollowFullHistory(attempts: seq<Attempt>)
    requires attempts != [] && !attempts[|attempts| - 1].verified
    ensures var a := attempts[|attempts| - 1];
            var ips := |FailedFromIp(attempts, a.ip, a.ipAt)|;
            var accounts := |FailedOnAccount(attempts, a.email, a.accountAt)|;
            && |Alerts(attempts)| <= |HistoryAlerts(a, ips, accounts)|
            && (Alerts(attempts) == HistoryAlerts(a, ips, accounts) <==>
                (IpInWindow(attempts) || ips < 5) && (AccountInWindow(attempts) || accounts < 8))
  {
    IpKeptShows(attempts);
    AccountKeptShows(attempts);
    hide IpMarks, AccountMarks, Pruned, RecentIpFailures, RecentAccountFailures, IpInWindow, AccountInWindow, Shows,
         IpAlert, AccountAlert, HistoryAlerts;
    var a := attempts[|attempts| - 1];
    IpFailuresCounted(attempts, a.ip, a.ipAt);
    AccountFailuresCounted(attempts, a.email, a.accountAt);
    hide FailedFromIp, FailedOnAccount;
    AlertsAgree(a, Pruned(IP_WINDOW, IpMarks(attempts, a.ip)), RecentIpFailures(attempts, a.ip, a.ipAt),
                Pruned(ACCOUNT_WINDOW, AccountMarks(attempts, a.email)),
                RecentAccountFailures(attempts, a.email, a.accountAt),
                IpInWindow(attempts), AccountInWindow(attempts));
  }

  /** With clocks that do not step back, as the gateway's own, it raises exactly what the full history calls for. */
  lemma {:induction false} SteadyClocksAlertExactly(attempts: seq<Attempt>)
    requires attempts != [] && !attempts[|attempts| - 1].verified
    requires var a := attempts[|attempts| - 1];
             Nondecreasing(IpMarks(attempts, a.ip)) && Nondecreasing(AccountMarks(attempts, a.email))
    ensures var a := attempts[|attempts| - 1];
            Alerts(attempts) == HistoryAlerts(a, |FailedFromIp(attempts, a.ip, a.ipAt)|,
                                              |FailedOnAccount(attempts, a.email, a.accountAt)|)
  {
    hide IpMarks, AccountMarks, Pruned, Failures, Nondecreasing, Select, NeverOutOfWindow, Alerts, HistoryAlerts,
         FailedFromIp, FailedOnAccount;
    var a := attempts[|attempts| - 1];
    LastMarks(attempts);
    SteadyClockLosesNothing(IP_WINDOW, IpMarks(attempts, a.ip));
    SteadyClockLosesNothing(ACCOUNT_WINDOW, AccountMarks(attempts, a.email));
    AlertsFollowFullHistory(attempts);
  }

  // ---------------------------------------------------------------- the trackers' contents as views

  /** What a tracker keeps for each key. */
  type View = Id -> seq<int>

  /** What a mark does to the kept failures of its key. */
  function KeptAfter(window: int, kept: seq<int>, m: Mark): seq<int> {
    match m
    case Cleared => []
    case FailedAt(at) => Since(kept, at - window) + [at]
  }

  /** `after` differs from `before` by one mark on `key`. */
  ghost predicate Follows(before: View, after: View, window: int, key: Id, m: Mark) {
    forall k :: after(k) == if k == key then KeptAfter(window, before(k), m) else before(k)
  }

  lemma After(before: View, window: int, key: Id, m: Mark) returns (after: View)
    ensures Follows(before, after, window, key, m)
  {
    after := k => if k == key then KeptAfter(window, before(k), m) else before(k);
  }

  /** The views are the pruned histories of the attempts. */
  ghost predicate Faithful(attempts: seq<Attempt>, ips: View, accounts: View) {
    && (forall k :: ips(k) == Pruned(IP_WINDOW, IpMarks(attempts, k)))
    && (forall k :: accounts(k) == Pruned(ACCOUNT_WINDOW, AccountMarks(attempts, k)))
  }

  lemma {:induction false} PrunedAppend(window: int, ms: seq<Mark>, m: Mark)
    ensures Pruned(window, ms + [m]) == KeptAfter(window, Pruned(window, ms), m)
  {
    assert (ms + [m])[..|ms|] == ms;
  }

  /** One more attempt changes what is kept for its own IP and account and nothing else. */
  lemma {:induction false} IpStep(attempts: seq<Attempt>, a: Attempt, ip: Id)
    ensures Pruned(IP_WINDOW, IpMarks(attempts + [a], ip)) ==
            var kept := Pruned(IP_WINDOW, IpMarks(attempts, ip));
            if ip == a.ip then KeptAfter(IP_WINDOW, kept, IpMark(a)) else kept
  {
    assert (attempts + [a])[..|attempts|] == attempts;
    PrunedAppend(IP_WINDOW, IpMarks(attempts, ip), IpMark(a));
    assert IpMarks(attempts, ip) + [] == IpMarks(attempts, ip);
  }

  lemma {:induction false} AccountStep(attempts: seq<Attempt>, a: Attempt, email: Id)
    ensures Pruned(ACCOUNT_WINDOW, AccountMarks(attempts + [a], email)) ==
            var kept := Pruned(ACCOUNT_WINDOW, AccountMarks(attempts, email));
            if email == a.email then KeptAfter(ACCOUNT_WINDOW, kept, AccountMark(a)) else kept
  {
    assert (attempts + [a])[..|attempts|] == attempts;
    PrunedAppend(ACCOUNT_WINDOW, AccountMarks(attempts, email), AccountMark(a));
    assert AccountMarks(attempts, email) + [] == AccountMarks(attempts, email);
  }

  /** Views that follow the attempt are the pruned histories with the attempt added. */
  lemma FaithfulStep(attempts: seq<Attempt>, a: Attempt, ips: View, ips': View, accounts: View, accounts': View)
    requires Faithful(attempts, ips, accounts)
    requires Follows(ips, ips', IP_WINDOW, a.ip, IpMark(a))
    requires Follows(accounts, accounts', ACCOUNT_WINDOW, a.email, AccountMark(a))
    ensures Faithful(attempts + [a], ips', accounts')
  {
    forall k ensures ips'(k) == Pruned(IP_WINDOW, IpMarks(attempts + [a], k)) {
      IpStep(attempts, a, k);
    }
    forall k ensures accounts'(k) == Pruned(ACCOUNT_WINDOW, AccountMarks(attempts + [a], k)) {
      AccountStep(attempts, a, k);
    }
  }

  /** Faithful views make a failed login raise what the attempts say. */
  lemma AlertsFromViews(attempts: seq<Attempt>, ips: View, accounts: View)
    requires attempts != [] && Faithful(attempts, ips, accounts)
    ensures var a := attempts[|attempts| - 1];
            Alerts(attempts) == IpAlert(a.ip, ips(a.ip)) + AccountAlert(a.email, accounts(a.email))
  {
    hide IpMarks, AccountMarks, Pruned, IpAlert, AccountAlert;
  }

  /** The tracker is set up with the window and threshold and keeps what the view says. */
  ghost predicate Tracks(t: BruteForceTracker, window: int, threshold: int, view: View)
    reads t, t.Buffers()
  {
    t.Valid() && t.window == window && t.threshold == threshold && forall k :: t.Kept(k) == view(k)
  }

  /** Notes a failure or a reset; only a failure can trigger. */
  method NoteMark(t: BruteForceTracker, key: Id, m: Mark, ghost before: View, ghost after: View)
    returns (triggered: bool, count: nat)
    requires Tracks(t, t.window, t.threshold, before) && Follows(before, after, t.window, key, m)
    modifies t, t.Buffers()
    ensures Tracks(t, t.window, t.threshold, after) && fresh(t.Buffers() - old(t.Buffers()))
    ensures count == |after(key)| && (triggered <==> m.FailedAt? && count >= t.threshold)
  {
    hide Select;
    match m
    case Cleared =>
      t.Reset(key);
      triggered, count := false, 0;
    case FailedAt(at) =>
      triggered, count := t.RecordFailure(key, at);
  }

  // ---------------------------------------------------------------- the service

  datatype LoginAnswer = LoggedIn(refreshToken: string) | InvalidCredentials | LoginFailed | Crashed

  datatype Check = Crashes | Wrong | Right(user: User)

  /** Whether the email is known and its stored hash accepts the password. */
  function PasswordCheck(kdf: Kdf, us: map<Id, User>, req: LoginRequest): Check {
    if req.email !in us then Wrong
    else match VerifyPassword(kdf, us[req.email].passwordHash, req.password)
      case Malformed => Wrong
      case Panicked => Crashes
      case Checked(accepted) => if accepted then Right(us[req.email]) else Wrong
  }

  /** Nobody has the email, or its stored string does not parse, or the password derives to another key. */
  predicate Denied(kdf: Kdf, us: map<Id, User>, req: LoginRequest) {
    || req.email !in us
    || (!CannotRun(us[req.email].passwordHash) && !Matches(kdf, us[req.email].passwordHash, req.password))
  }

  lemma CheckMeans(kdf: Kdf, us: map<Id, User>, req: LoginRequest)
    ensures var check := PasswordCheck(kdf, us, req);
            && (check.Wrong? <==> Denied(kdf, us, req))
            && (check.Crashes? <==> req.email in us && CannotRun(us[req.email].passwordHash))
            && (check.Right? <==> req.email in us && Matches(kdf, us[req.email].passwordHash, req.password))
            && (check.Right? ==> check == Right(us[req.email]))
  {
    hide VerifyPassword, CannotRun, Matches;
    if req.email in us {
      VerdictMeans(kdf, us[req.email].passwordHash, req.password);
    }
  }

  function Registration(kdf: Kdf, us: map<Id, User>, email: Id, password: string, salt: Result<Bytes>, id: Id)
    : Result<User>
  {
    if email in us then Failure
    else match HashPassword(kdf, password, salt)
      case Failure => Failure
      case Success(hash) => Success(User(id, email, hash, None))
  }

  /** An email registers once, and only if a salt can be had. */
  lemma RegistrationMeans(kdf: Kdf, us: map<Id, User>, email: Id, password: string, salt: Result<Bytes>, id: Id)
    ensures var r := Registration(kdf, us, email, password, salt, id);
            && (r.Success? <==> email !in us && salt.Success?)
            && (r.Success? ==>
                  && r.value.id == id && r.value.email == email && r.value.lastLogin.None?
                  && HashPassword(kdf, password, salt) == Success(r.value.passwordHash))
  {
    hide Stored;
  }

  /** Once registered, exactly the passwords that derive to the same key log in, the right one among them. */
  lemma RegisteredCanLogIn(kdf: Kdf, us: map<Id, User>, email: Id, password: string, salt: Bytes, id: Id,
                           req: LoginRequest)
    requires forall pw, s, t, m, h, n :: |kdf(pw, s, t, m, h, n)| == n
    requires email !in us && req.email == email
    ensures var user := Registration(kdf, us, email, password, Success(salt), id);
            var p := DEFAULT_PARAMS;
            && user.Success?
            && PasswordCheck(kdf, us[email := user.value], req) ==
               if kdf(req.password, salt, p.time, p.memory, p.threads, KEY_LENGTH)
                  == kdf(password, salt, p.time, p.memory, p.threads, KEY_LENGTH)
               then Right(user.value) else Wrong
  {
    hide HashPassword, VerifyPassword;
    HashedPasswordVerifies(kdf, password, salt, req.password);
  }

  /** Where and when the request logs in. */
  function At(req: LoginRequest, at: int): LastLogin {
    LastLogin(req.lat, req.lon, at)
  }

  function TravelAlert(travel: (LastLogin, LastLogin) -> bool, user: User, l: LastLogin): seq<SecurityEvent> {
    if user.lastLogin.Some? && travel(user.lastLogin.value, l) then [ImpossibleTravel(user.id)] else []
  }

  /** One call keeps the token families lineages. */
  lemma LineagesKept(s: System, c: Call)
    ensures Fresh(s, c) && Inv(s) ==> Inv(Stepped(s, c))
  {
    hide Inv, Fresh, Stepped;
    if Fresh(s, c) && Inv(s) {
      InvStep(s, c);
    }
  }

  class AuthService {
    const store: MemoryStore
    const bruteForceByIP: BruteForceTracker
    const bruteForceByAccount: BruteForceTracker
    const kdf: Kdf
    const hashToken: string -> Id
    const travel: (LastLogin, LastLogin) -> bool
    /** Everything handed to the publisher. */
    var published: seq<SecurityEvent>
    /** What the trackers keep. */
    ghost var ipView: View
    ghost var accountView: View
    /** Every login attempt whose password check completed. */
    ghost var attempts: seq<Attempt>
    /** The history of users, tokens and exchanges. */
    ghost var sessions: System

    /** The trackers share no array and keep what the views say. */
    ghost predicate TracksBoth(ips: View, accounts: View)
      reads bruteForceByIP, bruteForceByAccount, bruteForceByIP.Buffers(), bruteForceByAccount.Buffers()
    {
      && bruteForceByIP != bruteForceByAccount && bruteForceByIP.Buffers() !! bruteForceByAccount.Buffers()
      && Tracks(bruteForceByIP, IP_WINDOW, IP_THRESHOLD, ips)
      && Tracks(bruteForceByAccount, ACCOUNT_WINDOW, ACCOUNT_THRESHOLD, accounts)
    }

    ghost predicate StoreHolds(us: map<Id, User>, ts: map<Id, Token>)
      reads store, store.users.Values, store.tokens.Values
    {
      store.Valid() && store.Users() == us && store.Tokens() == ts
    }

    ghost predicate SessionsHold(us: map<Id, User>, s: System)
      reads store, store.users.Values, store.tokens.Values
    {
      StoreHolds(us, s.tokens) && store.byID.Keys == s.userIds
    }

    /** The users are `us`, and tokens and trackers are what the history of calls makes them. */
    ghost predicate Sound(us: map<Id, User>)
      reads this`ipView, this`accountView, this`attempts, this`sessions
      reads store, store.users.Values, store.tokens.Values
      reads bruteForceByIP, bruteForceByAccount, bruteForceByIP.Buffers(), bruteForceByAccount.Buffers()
    {
      SessionsHold(us, sessions) && TracksBoth(ipView, accountView) && Faithful(attempts, ipView, accountView)
    }

    constructor (kdf: Kdf, hashToken: string -> Id, travel: (LastLogin, LastLogin) -> bool)
      ensures Sound(map[]) && published == [] && attempts == [] && sessions == EMPTY && Inv(sessions)
    {
      this.kdf, this.hashToken, this.travel := kdf, hashToken, travel;
      store := new MemoryStore();
      bruteForceByIP := new BruteForceTracker(IP_WINDOW, IP_THRESHOLD);
      bruteForceByAccount := new BruteForceTracker(ACCOUNT_WINDOW, ACCOUNT_THRESHOLD);
      published := [];
      ipView, accountView := k => [], k => [];
      attempts, sessions := [], EMPTY;
    }

    /** Notes the history, once store and trackers are where it leaves them. */
    ghost method Remember(log: seq<Attempt>, s: System, us: map<Id, User>)
      requires SessionsHold(us, s) && TracksBoth(ipView, accountView) && Faithful(log, ipView, accountView)
      modifies this`attempts, this`sessions
      ensures Sound(us) && attempts == log && sessions == s
    {
      hide SessionsHold, Faithful;
      attempts, sessions := log, s;
    }

    /** Creates the user unless the email is known or no salt can be had; `id` is a new UUID. */
    method AddUser(email: Id, password: string, salt: Result<Bytes>, id: Id,
                   ghost us: map<Id, User>, ghost ts: map<Id, Token>)
      returns (r: Result<User>)
      requires StoreHolds(us, ts) && id !in store.byID
      modifies store`users, store`byID
      ensures r == Registration(kdf, us, email, password, salt, id)
      ensures StoreHolds(if r.Success? then us[email := r.value] else us, ts)
      ensures store.byID.Keys == old(store.byID.Keys) + if r.Success? then {id} else {}
    {
      hide HashPassword;
      var known := store.GetUserByEmail(email);
      if known.Success? {
        return Failure;
      }
      var hash := HashPassword(kdf, password, salt);
      if hash.Failure? {
        return Failure;
      }
      var user := store.CreateUser(id, email, hash.value);
      return Success(user);
    }

    /** Saves a new refresh token, unless generating the tokens fails. */
    method IssueTokenPair(userId: Id, familyId: Id, minted: Option<string>, at: int) returns (ok: bool)
      requires store.Valid()
      modifies store`tokens
      ensures store.Valid() && (ok <==> minted.Some?)
      ensures store.Tokens() ==
              if minted.None? then old(store.Tokens())
              else Issued(old(store.Tokens()), userId, familyId, hashToken(minted.value), at)
    {
      if minted.None? {
        return false;
      }
      store.Save(hashToken(minted.value), Token(userId, familyId, false, None, at + REFRESH_TTL));
      return true;
    }

    /** Exchanges a refresh token, or revokes its family when it was used or revoked before. */
    method ExchangeToken(plain: string, c: Clock, minted: Option<string>) returns (a: Answer)
      requires store.Valid()
      modifies this`published, store`tokens, store.tokens.Values
      ensures store.Valid()
      ensures (store.Tokens(), a) ==
              RefreshOutcome(old(store.Tokens()), store.byID.Keys, hashToken(plain), c,
                             if minted.Some? then Some(hashToken(minted.value)) else None)
      ensures var ts, h := old(store.Tokens()), hashToken(plain);
              && (a.Reused? <==> h in ts && (ts[h].revoked || ts[h].usedAt.Some?))
              && (a.Reused? ==> a == Reused(ts[h].familyId, ts[h].userId))
      ensures published ==
              old(published) + if a.Reused? then [RefreshTokenReuse(a.userId, a.familyId)] else []
    {
      hide FamilyRevoked, MarkedUsed, Issued;
      var hash := hashToken(plain);
      var found := store.Get(hash);
      if found.Failure? {
        return Invalid;
      }
      var rt := found.value;
      if rt.revoked || rt.usedAt.Some? {
        store.RevokeFamily(rt.familyId);
        published := published + [RefreshTokenReuse(rt.userId, rt.familyId)];
        return Reused(rt.familyId, rt.userId);
      }
      if c.check > rt.expiresAt {
        return Invalid;
      }
      var marked := store.MarkUsed(hash, c.mark);
      var user := store.GetUserByID(rt.userId);
      if user.Failure? {
        return Failed;
      }
      var issued := IssueTokenPair(user.value.id, rt.familyId, minted, c.issue);
      return if issued then Rotated(hashToken(minted.value)) else Failed;
    }

    /** Notes an attempt on both trackers; a failure may raise alerts. */
    method NoteBoth(a: Attempt, ghost ips: View, ghost ips': View, ghost accounts: View, ghost accounts': View)
      returns (alerts: seq<SecurityEvent>)
      requires TracksBoth(ips, accounts)
      requires Follows(ips, ips', IP_WINDOW, a.ip, IpMark(a))
      requires Follows(accounts, accounts', ACCOUNT_WINDOW, a.email, AccountMark(a))
      modifies bruteForceByIP, bruteForceByAccount, bruteForceByIP.Buffers(), bruteForceByAccount.Buffers()
      ensures TracksBoth(ips', accounts')
      ensures alerts == if a.verified then []
                        else IpAlert(a.ip, ips'(a.ip)) + AccountAlert(a.email, accounts'(a.email))
    {
      var ipHit, ipCount := NoteMark(bruteForceByIP, a.ip, IpMark(a), ips, ips');
      var accountHit, accountCount := NoteMark(bruteForceByAccount, a.email, AccountMark(a), accounts, accounts');
      alerts := (if ipHit then [BruteForceIp(a.ip, ipCount)] else [])
                + (if accountHit then [BruteForceAccount(a.email, accountCount)] else []);
    }

    /** Publishes; the trackers' views are given for the state reached. */
    method Publish(events: seq<SecurityEvent>, ghost ips: View, ghost accounts: View,
                   ghost us: map<Id, User>, ghost ts: map<Id, Token>)
      requires StoreHolds(us, ts) && TracksBoth(ips, accounts)
      modifies this`published, this`ipView, this`accountView
      ensures StoreHolds(us, ts) && TracksBoth(ips, accounts) && ipView == ips && accountView == accounts
      ensures published == old(published) + events
    {
      hide StoreHolds;
      published := published + events;
      ipView, accountView := ips, accounts;
    }

    /** Notes an attempt on both trackers and publishes what a failure raises. */
    method Note(a: Attempt, ghost us: map<Id, User>, ghost ts: map<Id, Token>)
      requires StoreHolds(us, ts) && TracksBoth(ipView, accountView)
      modifies this`published, this`ipView, this`accountView
      modifies bruteForceByIP, bruteForceByAccount, bruteForceByIP.Buffers(), bruteForceByAccount.Buffers()
      ensures StoreHolds(us, ts) && TracksBoth(ipView, accountView)
      ensures Follows(old(ipView), ipView, IP_WINDOW, a.ip, IpMark(a))
      ensures Follows(old(accountView), accountView, ACCOUNT_WINDOW, a.email, AccountMark(a))
      ensures published ==
              old(published)
              + if a.verified then [] else IpAlert(a.ip, ipView(a.ip)) + AccountAlert(a.email, accountView(a.email))
    {
      hide TracksBoth, Follows, IpAlert, AccountAlert;
      ghost var ips' := After(ipView, IP_WINDOW, a.ip, IpMark(a));
      ghost var accounts' := After(accountView, ACCOUNT_WINDOW, a.email, AccountMark(a));
      var alerts := NoteBoth(a, ipView, ips', accountView, accounts');
      Publish(alerts, ips', accounts', us, ts);
    }

    method CheckPassword(req: LoginRequest, ghost us: map<Id, User>, ghost ts: map<Id, Token>) returns (check: Check)
      requires StoreHolds(us, ts)
      ensures check == PasswordCheck(kdf, us, req)
      ensures check.Right? ==> req.email in us && us[req.email] == check.user
      ensures check.Wrong? <==> Denied(kdf, us, req)
      ensures check.Crashes? <==> req.email in us && CannotRun(us[req.email].passwordHash)
    {
      CheckMeans(kdf, us, req);
      hide Denied, CannotRun, Matches;
      var found := store.GetUserByEmail(req.email);
      if found.Failure? {
        return Wrong;
      }
      match VerifyPassword(kdf, found.value.passwordHash, req.password)
      case Malformed => return Wrong;
      case Panicked => return Crashes;
      case Checked(accepted) => return if accepted then Right(found.value) else Wrong;
    }

    /** Records the login of a user, without touching the trackers. */
    method NoteLogin(user: User, email: Id, l: LastLogin, ghost us: map<Id, User>, ghost ts: map<Id, Token>)
      requires StoreHolds(us, ts) && TracksBoth(ipView, accountView) && email in us && us[email] == user
      modifies store.users.Values
      ensures StoreHolds(WithLastLogin(us, user.id, l), ts) && TracksBoth(ipView, accountView)
    {
      hide WithLastLogin;
      assert store.users[email].id == user.id;
      var updated := store.UpdateLastLogin(user.id, l);
    }

    /** Starts a token family, without touching the trackers. */
    method StartFamily(user: User, familyId: Id, minted: Option<string>, at: int,
                       ghost us: map<Id, User>, ghost ts: map<Id, Token>)
      returns (ok: bool)
      requires StoreHolds(us, ts) && TracksBoth(ipView, accountView)
      modifies store`tokens
      ensures StoreHolds(us, if minted.None? then ts else Issued(ts, user.id, familyId, hashToken(minted.value), at))
      ensures TracksBoth(ipView, accountView) && (ok <==> minted.Some?)
    {
      hide Issued;
      ok := IssueTokenPair(user.id, familyId, minted, at);
    }

    /**
      The password check, then the trackers, the travel alert, the last login and a new token family.
      `us` and `ts` are what the store holds.
     */
    method CheckAndAdmit(req: LoginRequest, c: LoginClock, familyId: Id, minted: Option<string>,
                         ghost us: map<Id, User>, ghost ts: map<Id, Token>)
      returns (answer: LoginAnswer)
      requires StoreHolds(us, ts) && TracksBoth(ipView, accountView)
      modifies this`published, this`ipView, this`accountView
      modifies bruteForceByIP, bruteForceByAccount, bruteForceByIP.Buffers(), bruteForceByAccount.Buffers()
      modifies store`tokens, store.users.Values
      ensures TracksBoth(ipView, accountView)
      ensures match PasswordCheck(kdf, us, req)
              case Crashes =>
                && answer == Crashed && StoreHolds(us, ts)
                && ipView == old(ipView) && accountView == old(accountView)
                && published == old(published)
              case Wrong =>
                && answer == InvalidCredentials && StoreHolds(us, ts)
                && Follows(old(ipView), ipView, IP_WINDOW, req.ip, FailedAt(c.ip))
                && Follows(old(accountView), accountView, ACCOUNT_WINDOW, req.email, FailedAt(c.account))
                && published == old(published) + (IpAlert(req.ip, ipView(req.ip))
                                                  + AccountAlert(req.email, accountView(req.email)))
              case Right(user) =>
                && answer == (if minted.Some? then LoggedIn(minted.value) else LoginFailed)
                && StoreHolds(WithLastLogin(us, user.id, At(req, c.lastLogin)),
                              if minted.None? then ts
                              else Issued(ts, user.id, familyId, hashToken(minted.value), c.issue))
                && Follows(old(ipView), ipView, IP_WINDOW, req.ip, Cleared)
                && Follows(old(accountView), accountView, ACCOUNT_WINDOW, req.email, Cleared)
                && published == old(published) + TravelAlert(travel, user, At(req, c.travel))
    {
      hide TracksBoth, StoreHolds, Follows, PasswordCheck, IpAlert, AccountAlert, TravelAlert, WithLastLogin, Issued,
           Denied, CannotRun, Matches;
      var check := CheckPassword(req, us, ts);
      if check.Crashes? {
        return Crashed;
      }
      Note(Attempt(req.ip, req.email, check.Right?, c.ip, c.account), us, ts);
      if check.Wrong? {
        return InvalidCredentials;
      }
      Publish(TravelAlert(travel, check.user, At(req, c.travel)), ipView, accountView, us, ts);
      NoteLogin(check.user, req.email, At(req, c.lastLogin), us, ts);
      var issued := StartFamily(check.user, familyId, minted, c.issue,
                                WithLastLogin(us, check.user.id, At(req, c.lastLogin)), ts);
      return if issued then LoggedIn(minted.value) else LoginFailed;
    }

    // -------------------------------------------------------------- the service calls, with their history

    /** A registration is one step of the session history. */
    method Register(email: Id, password: string, salt: Result<Bytes>, id: Id, ghost us: map<Id, User>)
      returns (r: Result<User>)
      requires Sound(us) && id !in store.byID
      modifies this`attempts, this`sessions, store`users, store`byID
      ensures r.Success? <==> email !in us && salt.Success?
      ensures r.Success? ==>
                && r.value.id == id && r.value.email == email && r.value.lastLogin.None?
                && HashPassword(kdf, password, salt) == Success(r.value.passwordHash)
      ensures Sound(if r.Success? then us[email := r.value] else us)
      ensures sessions == if r.Success? then Stepped(old(sessions), Call.Register(id)) else old(sessions)
      ensures Inv(old(sessions)) ==> Inv(sessions)
      ensures attempts == old(attempts)
    {
      hide StoreHolds, Faithful, Registration, Inv, HashPassword;
      LineagesKept(sessions, Call.Register(id));
      RegistrationMeans(kdf, us, email, password, salt, id);
      r := AddUser(email, password, salt, id, us, sessions.tokens);
      ghost var us' := if r.Success? then us[email := r.value] else us;
      Remember(attempts, if r.Success? then Stepped(sessions, Call.Register(id)) else sessions, us');
    }

    function HashOf(minted: Option<string>): Option<Id> {
      if minted.Some? then Some(hashToken(minted.value)) else None
    }

    /** The store after a refresh is the session history one step on. */
    method RotateToken(plain: string, c: Clock, minted: Option<string>, ghost us: map<Id, User>, ghost s: System)
      returns (a: Answer)
      requires SessionsHold(us, s)
      modifies this`published, store`tokens, store.tokens.Values
      ensures var call := Call.Refresh(hashToken(plain), c, HashOf(minted));
              SessionsHold(us, Stepped(s, call)) && a == Answered(s, call)
      ensures published ==
              old(published) + if a.Reused? then [RefreshTokenReuse(a.userId, a.familyId)] else []
    {
      hide RefreshOutcome, Stepped, Answered;
      RefreshStep(s, Call.Refresh(hashToken(plain), c, HashOf(minted)));
      a := ExchangeToken(plain, c, minted);
    }

    /** A refresh is one step of the session history and publishes exactly what it finds reused. */
    method Refresh(plain: string, c: Clock, minted: Option<string>, ghost us: map<Id, User>) returns (a: Answer)
      requires Sound(us)
      modifies this`attempts, this`sessions, this`published, store`tokens, store.tokens.Values
      ensures Sound(us) && attempts == old(attempts)
      ensures var call := Call.Refresh(hashToken(plain), c, HashOf(minted));
              && sessions == Stepped(old(sessions), call) && a == Answered(old(sessions), call)
              && (Fresh(old(sessions), call) && Inv(old(sessions)) ==> Inv(sessions))
      ensures var ts, h := old(sessions.tokens), hashToken(plain);
              && (a.Reused? <==> h in ts && (ts[h].revoked || ts[h].usedAt.Some?))
              && (a.Reused? ==> a == Reused(ts[h].familyId, ts[h].userId))
      ensures published ==
              old(published) + if a.Reused? then [RefreshTokenReuse(a.userId, a.familyId)] else []
    {
      hide Faithful, SessionsHold, Stepped, Answered, Fresh, Inv;
      ghost var call := Call.Refresh(hashToken(plain), c, HashOf(minted));
      ReuseReportedExactly(sessions, call);
      LineagesKept(sessions, call);
      a := RotateToken(plain, c, minted, us, sessions);
      Remember(attempts, Stepped(sessions, call), us);
    }

    /**
      A login is one step of the attempt history, unless the password check crashes, and of the
      session history if the password is right; a wrong one publishes what the history calls for.
     */
    method Login(req: LoginRequest, c: LoginClock, familyId: Id, minted: Option<string>, ghost us: map<Id, User>)
      returns (answer: LoginAnswer)
      requires Sound(us)
      modifies this`published, this`ipView, this`accountView, this`attempts, this`sessions
      modifies bruteForceByIP, bruteForceByAccount, bruteForceByIP.Buffers(), bruteForceByAccount.Buffers()
      modifies store`tokens, store.users.Values
      ensures var check := PasswordCheck(kdf, us, req);
              && Sound(if check.Right? then WithLastLogin(us, check.user.id, LastLogin(req.lat, req.lon, c.lastLogin))
                       else us)
              && attempts == (if check.Crashes? then old(attempts)
                              else old(attempts) + [Attempt(req.ip, req.email, check.Right?, c.ip, c.account)])
              && (if check.Right? then
                    var call := Call.Login(check.user.id, familyId, HashOf(minted), c.issue);
                    && sessions == Stepped(old(sessions), call)
                    && (Fresh(old(sessions), call) && Inv(old(sessions)) ==> Inv(sessions))
                  else sessions == old(sessions))
      ensures Denied(kdf, us, req) ==>
                && answer == InvalidCredentials
                && attempts == old(attempts) + [Attempt(req.ip, req.email, false, c.ip, c.account)]
                && published == old(published) + Alerts(attempts)
      ensures answer.Crashed? <==> req.email in us && CannotRun(us[req.email].passwordHash)
      ensures answer.Crashed? ==> attempts == old(attempts) && published == old(published)
      ensures req.email in us && Matches(kdf, us[req.email].passwordHash, req.password) ==>
                var user, here := us[req.email], LastLogin(req.lat, req.lon, c.travel);
                && answer == (if minted.Some? then LoggedIn(minted.value) else LoginFailed)
                && attempts == old(attempts) + [Attempt(req.ip, req.email, true, c.ip, c.account)]
                && published == old(published) + if user.lastLogin.Some? && travel(user.lastLogin.value, here)
                                                 then [ImpossibleTravel(user.id)] else []
    {
      CheckMeans(kdf, us, req);
      hide TracksBoth, StoreHolds, Follows, Faithful, PasswordCheck, IpAlert, AccountAlert, WithLastLogin, Issued,
           Stepped, Alerts, Fresh, Inv, Denied, CannotRun, Matches;
      ghost var before, s := attempts, sessions;
      ghost var ips, accounts := ipView, accountView;
      ghost var check := PasswordCheck(kdf, us, req);
      answer := CheckAndAdmit(req, c, familyId, minted, us, sessions.tokens);
      if check.Crashes? {
        Remember(before, s, us);
      } else {
        ghost var a := Attempt(req.ip, req.email, check.Right?, c.ip, c.account);
        FaithfulStep(before, a, ips, ipView, accounts, accountView);
        AlertsFromViews(before + [a], ipView, accountView);
        if check.Wrong? {
          Remember(before + [a], s, us);
        } else {
          ghost var call := Call.Login(check.user.id, familyId, HashOf(minted), c.issue);
          LoginStep(s, call);
          LineagesKept(s, call);
          Remember(before + [a], Stepped(s, call), WithLastLogin(us, check.user.id, At(req, c.lastLogin)));
        }
      }
    }
  }
}
