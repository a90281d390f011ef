/** What a long poll is told: the outcome of its fetches, and where it waits. */
module PollAnswers {
  import opened Wrappers

  import opened Keys
  import opened Instances
  import opened RegistryModel

  datatype PollError = NoError | ErrNotModified | ErrNothingFound

  /** What the fetch for the i-th application of a poll returns. */
  ghost function Answer(s: State, arg: ArgPolls, i: nat, pick: string): FetchResult
    requires i < |arg.appids| == |arg.latestTs|
  {
    RegistryModel.Fetch(s, arg.zone, arg.env, arg.appids[i], arg.latestTs[i], STATUS_UP, pick)
  }

  ghost function Kind(r: FetchResult): PollError {
    match r
    case Found(_) => NoError
    case NotModified => ErrNotModified
    case NothingFound => ErrNothingFound
  }

  /** Which kind of answer a poll gets does not depend on the wildcard's pick. */
  lemma AnswerKind(s: State, arg: ArgPolls, i: nat, pick: string)
    requires i < |arg.appids| == |arg.latestTs|
    ensures Kind(Answer(s, arg, i, pick)) == Kind(Answer(s, arg, i, ""))
    ensures PollFinds(s, arg, i) <==> Answer(s, arg, i, pick).Found?
  {}

  /** The applications among the first `n` that were not found, in order. */
  ghost function Missed(s: State, arg: ArgPolls, n: nat): seq<string>
    requires n <= |arg.appids| == |arg.latestTs|
  {
    if n == 0 then []
    else if Answer(s, arg, n - 1, "") == NothingFound then Missed(s, arg, n - 1) + [arg.appids[n - 1]]
    else Missed(s, arg, n - 1)
  }

  /** The error reported is that of the last application alone. */
  ghost function LastError(s: State, arg: ArgPolls, n: nat): PollError
    requires n <= |arg.appids| == |arg.latestTs|
  {
    if n == 0 then NoError else Kind(Answer(s, arg, n - 1, ""))
  }

  /** The first `n` applications of a poll have been fetched with this outcome. */
  ghost predicate Asked(s: State, arg: ArgPolls, n: nat, ins: map<string, Info>, notify: bool, miss: seq<string>,
                        err: PollError)
    requires n <= |arg.appids| == |arg.latestTs|
  {
    && (notify <==> exists j :: 0 <= j < n && PollFinds(s, arg, j))
    && (!notify ==> ins == map[])
    && Answers(s, arg, n, ins)
    && miss == Missed(s, arg, n)
    && err == LastError(s, arg, n)
  }

  /** Every application with news has an answer, and every answer was fetched. */
  ghost predicate Answers(s: State, arg: ArgPolls, n: nat, ins: map<string, Info>)
    requires n <= |arg.appids| == |arg.latestTs|
  {
    && (forall j :: 0 <= j < n && PollFinds(s, arg, j) ==> arg.appids[j] in ins)
    && (forall a | a in ins :: IsAnswer(s, arg, n, a, ins[a]))
  }

  ghost predicate IsAnswer(s: State, arg: ArgPolls, n: nat, appid: string, info: Info)
    requires n <= |arg.appids| == |arg.latestTs|
  {
    exists j, pick :: 0 <= j < n && arg.appids[j] == appid && Answer(s, arg, j, pick) == Found(info)
  }

  lemma IsAnswerMore(s: State, arg: ArgPolls, n: nat, appid: string, info: Info)
    requires n < |arg.appids| == |arg.latestTs| && IsAnswer(s, arg, n, appid, info)
    ensures IsAnswer(s, arg, n + 1, appid, info)
  {}

  lemma AnswersMiss(s: State, arg: ArgPolls, n: nat, ins: map<string, Info>)
    requires n < |arg.appids| == |arg.latestTs| && Answers(s, arg, n, ins) && !PollFinds(s, arg, n)
    ensures Answers(s, arg, n + 1, ins)
  {
    forall a | a in ins ensures IsAnswer(s, arg, n + 1, a, ins[a]) {
      IsAnswerMore(s, arg, n, a, ins[a]);
    }
  }

  lemma AnswersHit(s: State, arg: ArgPolls, n: nat, ins: map<string, Info>, pick: string, info: Info)
    requires n < |arg.appids| == |arg.latestTs| && Answers(s, arg, n, ins) && Answer(s, arg, n, pick) == Found(info)
    ensures Answers(s, arg, n + 1, ins[arg.appids[n] := info])
  {
    assert IsAnswer(s, arg, n + 1, arg.appids[n], info);
    forall a | a in ins ensures IsAnswer(s, arg, n + 1, a, ins[a]) {
      IsAnswerMore(s, arg, n, a, ins[a]);
    }
  }

  lemma AskedMiss(s: State, arg: ArgPolls, n: nat, ins: map<string, Info>, notify: bool, miss: seq<string>,
                  err: PollError, pick: string)
    requires n < |arg.appids| == |arg.latestTs| && Asked(s, arg, n, ins, notify, miss, err)
    requires !Answer(s, arg, n, pick).Found?
    ensures
      var r := Answer(s, arg, n, pick);
      Asked(s, arg, n + 1, ins, notify, if r == NothingFound then miss + [arg.appids[n]] else miss, Kind(r))
  {
    AnswerKind(s, arg, n, pick);
    AnswersMiss(s, arg, n, ins);
  }

  lemma AskedHit(s: State, arg: ArgPolls, n: nat, ins: map<string, Info>, notify: bool, miss: seq<string>,
                 err: PollError, pick: string)
    requires n < |arg.appids| == |arg.latestTs| && Asked(s, arg, n, ins, notify, miss, err)
    requires Answer(s, arg, n, pick).Found?
    ensures Asked(s, arg, n + 1, ins[arg.appids[n] := Answer(s, arg, n, pick).info], true, miss, NoError)
  {
    AnswerKind(s, arg, n, pick);
    AnswersHit(s, arg, n, ins, pick, Answer(s, arg, n, pick).info);
  }

  /** A poll has news and reports an error all the same, exactly when some listed
      application has news and the last one has none; the request handler then drops
      the news and passes on the error. */
  lemma NewsWithErrorIff(s: State, arg: ArgPolls, ins: map<string, Info>, notify: bool, miss: seq<string>,
                         err: PollError)
    requires |arg.appids| == |arg.latestTs| && Asked(s, arg, |arg.appids|, ins, notify, miss, err)
    ensures notify && err != NoError <==>
      (exists j :: 0 <= j < |arg.appids| && PollFinds(s, arg, j)) && !PollFinds(s, arg, |arg.appids| - 1)
    ensures notify ==> (err == NoError <==> PollFinds(s, arg, |arg.appids| - 1))
  {
    if |arg.appids| > 0 {
      AnswerKind(s, arg, |arg.appids| - 1, "");
    }
  }

  lemma TwoApps(i: Instance, j: Instance)
    requires i.env == j.env && i.appid != j.appid && DashFree(i.env)
    ensures
      var s := Register(Register(EMPTY, i, 0), j, 0);
      var k, l := AppsKey(i.appid, i.env), AppsKey(j.appid, j.env);
      && k in s.appm && s.appm[k].latestTs == Bump(0, i.latestTs) && i.zone in s.appm[k].apps
      && l in s.appm && s.appm[l].latestTs == Bump(0, j.latestTs)
  {
    if AppsKey(i.appid, i.env) == AppsKey(j.appid, j.env) {
      AppsKeyInjective(i.appid, i.env, j.appid, j.env);
    }
  }

  /** Two applications, the first one new to the client and the second one up to date:
      the answer holds the news, and the error says that nothing was modified. */
  lemma NewsDropped(i: Instance, j: Instance, host: string, ins: map<string, Info>, notify: bool, miss: seq<string>,
                    err: PollError)
    requires i.zone == j.zone != "" && i.env == j.env && i.appid != j.appid && DashFree(i.env)
    requires
      var s := Register(Register(EMPTY, i, 0), j, 0);
      var arg := ArgPolls(i.zone, i.env, [i.appid, j.appid], host, [0, Bump(0, j.latestTs)]);
      Asked(s, arg, 2, ins, notify, miss, err)
    ensures notify && i.appid in ins && err == ErrNotModified && miss == []
  {
    var s := Register(Register(EMPTY, i, 0), j, 0);
    var arg := ArgPolls(i.zone, i.env, [i.appid, j.appid], host, [0, Bump(0, j.latestTs)]);
    TwoApps(i, j);
    NewsDroppedAt(s, arg, ins, notify, miss, err);
  }

  lemma NewsDroppedAt(s: State, arg: ArgPolls, ins: map<string, Info>, notify: bool, miss: seq<string>, err: PollError)
    requires |arg.appids| == |arg.latestTs| == 2 && arg.zone != "" && Asked(s, arg, 2, ins, notify, miss, err)
    requires
      var k, l := AppsKey(arg.appids[0], arg.env), AppsKey(arg.appids[1], arg.env);
      && k in s.appm && arg.latestTs[0] < s.appm[k].latestTs && arg.zone in s.appm[k].apps
      && l in s.appm && arg.latestTs[1] >= s.appm[l].latestTs
    ensures notify && arg.appids[0] in ins && err == ErrNotModified && miss == []
  {
    assert PollFinds(s, arg, 0) && Answer(s, arg, 0, "").Found?;
    assert Answer(s, arg, 1, "") == NotModified;
    assert Missed(s, arg, 1) == Missed(s, arg, 0) == [];
  }

  /** The channel a poll is given: a fresh one to be answered on, or where it parks. */
  ghost function PolledChannel(s: State, arg: ArgPolls): Option<nat>
    requires |arg.appids| == |arg.latestTs|
  {
    if Notifies(s, arg) then Some(s.nextCh) else ParkUpTo(Parking(s.conns, None, s.nextCh), arg, |arg.appids|).ch
  }

  lemma SamePolls(s: State, arg: ArgPolls)
    ensures RegistryModel.Polls(s, Normalized(arg)) == RegistryModel.Polls(s, arg)
    ensures |Normalized(arg).appids| == |arg.appids|
  {}

  lemma AskedNotifies(s: State, arg: ArgPolls, ins: map<string, Info>, notify: bool, miss: seq<string>, err: PollError)
    requires |arg.appids| == |arg.latestTs| && Asked(s, arg, |arg.appids|, ins, notify, miss, err)
    ensures notify <==> Notifies(s, arg)
  {}

  lemma SettledIs(s: State, arg: ArgPolls, conns: map<string, Hosts>, ch: Option<nat>, nextCh: nat)
    requires |arg.appids| == |arg.latestTs|
    requires if Notifies(s, arg) then conns == s.conns && ch == Some(s.nextCh) && nextCh == s.nextCh + 1
             else Parking(conns, ch, nextCh) == ParkUpTo(Parking(s.conns, None, s.nextCh), arg, |arg.appids|)
    ensures RegistryModel.Polls(s, arg) == s.(conns := conns, nextCh := nextCh) && ch == PolledChannel(s, arg)
  {}
}
