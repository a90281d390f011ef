/** The string keys of the registry's two dictionaries: one for the stored
    applications, one for the parked long-poll connections. */
module Keys {

  /** The name of an application in one environment. */
  datatype Name = Name(appid: string, env: string)

  function AppsKey(appid: string, env: string): string {
    appid + "-" + env
  }

  function PollKey(appid: string, env: string): string {
    env + "-" + appid
  }

  predicate DashFree(s: string) {
    '-' !in s
  }

  /** Two names that share a registry entry also share a poll entry. This is
      the exact condition under which a broadcast reaches every poller that
      watches the entry which changed (see module Polling). */
  ghost predicate KeysAgree(names: iset<Name>) {
    forall p, q | p in names && q in names ::
      AppsKey(p.appid, p.env) == AppsKey(q.appid, q.env) ==> PollKey(p.appid, p.env) == PollKey(q.appid, q.env)
  }

  lemma AppsKeyInjective(a: string, e: string, a': string, e': string)
    requires DashFree(e) && DashFree(e')
    requires AppsKey(a, e) == AppsKey(a', e')
    ensures a == a' && e == e'
  {
    var k := AppsKey(a, e);
    assert k == AppsKey(a', e');
    assert k[|a|] == '-' && k[|a'|] == '-';
    assert |a| == |a'|;
    assert k[..|a|] == a && k[..|a'|] == a';
    assert k[|a| + 1..] == e && k[|a'| + 1..] == e';
  }

  lemma PollKeyInjective(a: string, e: string, a': string, e': string)
    requires DashFree(e) && DashFree(e')
    requires PollKey(a, e) == PollKey(a', e')
    ensures a == a' && e == e'
  {
    var k := PollKey(a, e);
    assert k == PollKey(a', e');
    assert k[|e|] == '-' && k[|e'|] == '-';
    assert |e| == |e'|;
    assert k[..|e|] == e && k[..|e'|] == e';
    assert k[|e| + 1..] == a && k[|e'| + 1..] == a';
  }

  /** Within one environment the poll key names the application. */
  lemma PollKeySameEnv(a: string, a': string, e: string)
    requires PollKey(a, e) == PollKey(a', e)
    ensures a == a'
  {
    var k := PollKey(a, e);
    assert k[|e| + 1..] == a;
    assert PollKey(a', e)[|e| + 1..] == a';
  }

  /** Environments without a dash always satisfy the condition. */
  lemma DashFreeKeysAgree(names: iset<Name>)
    requires forall n | n in names :: DashFree(n.env)
    ensures KeysAgree(names)
  {
    forall p, q | p in names && q in names && AppsKey(p.appid, p.env) == AppsKey(q.appid, q.env)
      ensures PollKey(p.appid, p.env) == PollKey(q.appid, q.env)
    {
      AppsKeyInjective(p.appid, p.env, q.appid, q.env);
    }
  }

  /** A dash in the environment makes two names collide on one key only. */
  lemma DashedEnvCollides()
    ensures AppsKey("a-b", "c") == AppsKey("a", "b-c")
    ensures PollKey("a-b", "c") != PollKey("a", "b-c")
    ensures !KeysAgree(iset{Name("a-b", "c"), Name("a", "b-c")})
  {
    var p, q := Name("a-b", "c"), Name("a", "b-c");
    assert AppsKey(p.appid, p.env) == "a-b-c" == AppsKey(q.appid, q.env);
    assert PollKey(p.appid, p.env)[0] == 'c' && PollKey(q.appid, q.env)[0] == 'b';
  }
}
