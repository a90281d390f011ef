/** What App.Set does, host by host, without its loop: each field in terms of the
    arguments and of what was stored before. */
module SetEffect {
  import opened Sequences

  import opened Instances

  /** The metadata of host `h` after the first `n` entries. */
  function MetadataAfter(m: map<string, string>, arg: ArgSet, decode: Decoder, h: string, n: nat): map<string, string>
    requires arg.Valid() && n <= |arg.hostnames|
  {
    if n == 0 then m
    else
      var before := MetadataAfter(m, arg, decode, h, n - 1);
      if arg.hostnames[n - 1] == h && |arg.metadata| > 0 then decode(arg.metadata[n - 1], before).0 else before
  }

  /** The last status that the first `n` entries give to host `h`, or else `old`. */
  function StatusAfter(st: bv32, arg: ArgSet, h: string, n: nat): bv32
    requires arg.Valid() && n <= |arg.hostnames|
  {
    if n == 0 then st
    else if arg.hostnames[n - 1] == h && |arg.status| > 0 then Truncated(arg.status[n - 1])
    else StatusAfter(st, arg, h, n - 1)
  }

  /** One of the first `n` entries takes host `h` up. */
  predicate TakenUp(arg: ArgSet, h: string, n: nat)
    requires arg.Valid() && n <= |arg.hostnames|
  {
    |arg.status| > 0 && exists j :: 0 <= j < n && arg.hostnames[j] == h && Truncated(arg.status[j]) == STATUS_UP
  }

  predicate Named(arg: ArgSet, h: string, n: nat)
    requires n <= |arg.hostnames|
  {
    h in arg.hostnames[..n]
  }

  /** The metadata of entry `i` can be decoded when its turn comes. */
  predicate Decodes(a: AppData, arg: ArgSet, decode: Decoder, i: nat)
    requires arg.Valid() && i < |arg.hostnames| && arg.hostnames[i] in a.instances
  {
    var h := arg.hostnames[i];
    |arg.metadata| > 0 ==> decode(arg.metadata[i], MetadataAfter(a.instances[h].metadata, arg, decode, h, i)).1
  }

  /** Where the loop stops when it has come to entry `i`: at an unknown host, at
      metadata that cannot be decoded, or at the end. */
  function StopsAt(a: AppData, arg: ArgSet, decode: Decoder, i: nat): (n: nat)
    requires arg.Valid() && i <= |arg.hostnames|
    ensures i <= n <= |arg.hostnames|
    decreases |arg.hostnames| - i
  {
    if i == |arg.hostnames| || arg.hostnames[i] !in a.instances || !Decodes(a, arg, decode, i) then i
    else StopsAt(a, arg, decode, i + 1)
  }

  /** Entries that were begun: the one whose metadata failed has been begun too. */
  function Begun(a: AppData, arg: ArgSet, n: nat): (e: nat)
    requires n <= |arg.hostnames|
    ensures n <= e <= |arg.hostnames|
  {
    if n < |arg.hostnames| && arg.hostnames[n] in a.instances then n + 1 else n
  }

  /** The stored instance when `begun` entries were begun and `done` completed. */
  function HostAfter(o: Instance, arg: ArgSet, decode: Decoder, h: string, begun: nat, done: nat): Instance
    requires arg.Valid() && done <= begun <= |arg.hostnames|
  {
    o.(status := StatusAfter(o.status, arg, h, begun),
       upTs := if TakenUp(arg, h, begun) then arg.setTs else o.upTs,
       metadata := MetadataAfter(o.metadata, arg, decode, h, begun),
       latestTs := if Named(arg, h, done) then arg.setTs else o.latestTs,
       dirtyTs := if Named(arg, h, done) then arg.setTs else o.dirtyTs)
  }

  /** The state of the loop before entry `i`. */
  ghost predicate Before(a: AppData, arg: ArgSet, decode: Decoder, i: nat, b: AppData)
    requires arg.Valid() && i <= |arg.hostnames|
  {
    && b.instances.Keys == a.instances.Keys
    && forall h | h in a.instances ::
      h in b.instances && b.instances[h] == HostAfter(a.instances[h], arg, decode, h, i, i)
  }

  /** The status and metadata that entry `i` writes into `dst`, decodable or not. */
  function Written(dst: Instance, arg: ArgSet, decode: Decoder, i: nat): Instance
    requires arg.Valid() && i < |arg.hostnames|
  {
    var dst1 := if |arg.status| > 0 then SetStatus(dst, Truncated(arg.status[i]), arg.setTs) else dst;
    if |arg.metadata| > 0 then dst1.(metadata := decode(arg.metadata[i], dst1.metadata).0) else dst1
  }

  lemma OneEntry(o: Instance, arg: ArgSet, decode: Decoder, h: string, i: nat)
    requires arg.Valid() && i < |arg.hostnames|
    ensures
      var b := HostAfter(o, arg, decode, h, i, i);
      var w := Written(b, arg, decode, i);
      && (arg.hostnames[i] == h ==>
        && HostAfter(o, arg, decode, h, i + 1, i) == w
        && HostAfter(o, arg, decode, h, i + 1, i + 1) == w.(latestTs := arg.setTs, dirtyTs := arg.setTs))
      && (arg.hostnames[i] != h ==>
        && HostAfter(o, arg, decode, h, i + 1, i) == b
        && HostAfter(o, arg, decode, h, i + 1, i + 1) == b)
  {
    assert arg.hostnames[..i + 1] == arg.hostnames[..i] + [arg.hostnames[i]];
  }

  /** Every host after a loop that stopped at entry `n`. */
  ghost predicate After(a: AppData, arg: ArgSet, decode: Decoder, n: nat, r: AppData)
    requires arg.Valid() && n <= |arg.hostnames|
  {
    && r.instances.Keys == a.instances.Keys
    && forall h | h in a.instances ::
      h in r.instances && r.instances[h] == HostAfter(a.instances[h], arg, decode, h, Begun(a, arg, n), n)
  }

  /** Success: every entry was completed and the last one gave no unknown status. */
  predicate Succeeds(arg: ArgSet, n: nat)
    requires arg.Valid() && n <= |arg.hostnames|
  {
    n == |arg.hostnames| > 0 && LastKnown(arg, n)
  }

  predicate LastKnown(arg: ArgSet, n: nat)
    requires arg.Valid() && 0 < n <= |arg.hostnames|
  {
    |arg.status| > 0 ==> KnownStatus(Truncated(arg.status[n - 1]))
  }

  ghost predicate Ends(a: AppData, arg: ArgSet, decode: Decoder, n: nat, r: (AppData, bool))
    requires arg.Valid() && n <= |arg.hostnames|
  {
    After(a, arg, decode, n, r.0) && (r.1 <==> Succeeds(arg, n))
  }

  lemma LoopStep(b: AppData, arg: ArgSet, decode: Decoder, i: nat, ok: bool)
    requires arg.Valid() && i < |arg.hostnames| && arg.hostnames[i] in b.instances
    ensures
      var h := arg.hostnames[i];
      var w := Written(b.instances[h], arg, decode, i);
      AppSetFrom(b, arg, decode, i, ok) ==
        if |arg.metadata| > 0 && !decode(arg.metadata[i], b.instances[h].metadata).1
        then (b.(instances := b.instances[h := w]), false)
        else AppSetFrom(b.(instances := b.instances[h := w.(latestTs := arg.setTs, dirtyTs := arg.setTs)]), arg, decode,
                        i + 1, LastKnown(arg, i + 1))
  {}

  /** The entry of the loop that is begun but not completed. */
  lemma FailedEntry(a: AppData, arg: ArgSet, decode: Decoder, i: nat, b: AppData, ok: bool)
    requires arg.Valid() && i < |arg.hostnames| && Before(a, arg, decode, i, b)
    requires arg.hostnames[i] in a.instances && !Decodes(a, arg, decode, i)
    ensures Ends(a, arg, decode, i, AppSetFrom(b, arg, decode, i, ok))
  {
    LoopStep(b, arg, decode, i, ok);
    forall h | h in a.instances {
      OneEntry(a.instances[h], arg, decode, h, i);
    }
  }

  /** One completed entry leads to the state before the next. */
  lemma CompletedEntry(a: AppData, arg: ArgSet, decode: Decoder, i: nat, b: AppData, ok: bool) returns (c: AppData)
    requires arg.Valid() && i < |arg.hostnames| && Before(a, arg, decode, i, b)
    requires arg.hostnames[i] in a.instances && Decodes(a, arg, decode, i)
    ensures Before(a, arg, decode, i + 1, c)
    ensures AppSetFrom(b, arg, decode, i, ok) ==
      AppSetFrom(c, arg, decode, i + 1, LastKnown(arg, i + 1))
  {
    var h := arg.hostnames[i];
    var w := Written(b.instances[h], arg, decode, i);
    c := b.(instances := b.instances[h := w.(latestTs := arg.setTs, dirtyTs := arg.setTs)]);
    LoopStep(b, arg, decode, i, ok);
    forall g | g in a.instances {
      OneEntry(a.instances[g], arg, decode, g, i);
    }
  }

  lemma LoopStops(a: AppData, arg: ArgSet, decode: Decoder, i: nat, b: AppData, ok: bool)
    requires arg.Valid() && i <= |arg.hostnames| && Before(a, arg, decode, i, b)
    requires i == |arg.hostnames| || arg.hostnames[i] !in a.instances
    requires ok <==> i > 0 && LastKnown(arg, i)
    ensures Ends(a, arg, decode, i, AppSetFrom(b, arg, decode, i, ok))
  {}

  lemma {:induction false} LoopEffect(a: AppData, arg: ArgSet, decode: Decoder, i: nat, b: AppData, ok: bool)
    requires arg.Valid() && i <= |arg.hostnames| && Before(a, arg, decode, i, b)
    requires ok <==> i > 0 && LastKnown(arg, i)
    ensures Ends(a, arg, decode, StopsAt(a, arg, decode, i), AppSetFrom(b, arg, decode, i, ok))
    decreases |arg.hostnames| - i
  {
    if i == |arg.hostnames| || arg.hostnames[i] !in a.instances {
      LoopStops(a, arg, decode, i, b, ok);
    } else if !Decodes(a, arg, decode, i) {
      FailedEntry(a, arg, decode, i, b, ok);
    } else {
      var c := CompletedEntry(a, arg, decode, i, b, ok);
      LoopEffect(a, arg, decode, i + 1, c, LastKnown(arg, i + 1));
    }
  }

  /** App.Set as a whole: no host comes or goes, and each one's fields are those of
      the entries begun and completed before the loop stopped; it succeeds exactly
      when all were completed and the last status is a known one. */
  lemma SetHosts(a: AppData, arg: ArgSet, decode: Decoder)
    requires arg.Valid()
    ensures Ends(a, arg, decode, StopsAt(a, arg, decode, 0), AppSet(a, arg, decode))
  {
    assert Before(a, arg, decode, 0, a);
    LoopEffect(a, arg, decode, 0, a, false);
  }

  lemma {:induction false} StopsAtEnd(a: AppData, arg: ArgSet, decode: Decoder, i: nat)
    requires arg.Valid() && i <= |arg.hostnames|
    ensures StopsAt(a, arg, decode, i) == |arg.hostnames| <==>
      forall j: nat | i <= j < |arg.hostnames| :: arg.hostnames[j] in a.instances && Decodes(a, arg, decode, j)
    decreases |arg.hostnames| - i
  {
    if i < |arg.hostnames| {
      StopsAtEnd(a, arg, decode, i + 1);
    }
  }

  /** The low 32 bits are 1 or 2. */
  predicate UpOrWaiting(x: bv64) {
    x << 32 == 0x1_0000_0000 || x << 32 == 0x2_0000_0000
  }

  lemma LowWord(x: bv64)
    ensures KnownStatus(Truncated(x)) <==> UpOrWaiting(x)
  {}

  lemma LastKnownIff(arg: ArgSet, n: nat)
    requires arg.Valid() && 0 < n <= |arg.hostnames|
    ensures LastKnown(arg, n) <==> (|arg.status| > 0 ==> UpOrWaiting(arg.status[n - 1]))
  {
    if |arg.status| > 0 {
      LowWord(arg.status[n - 1]);
    }
  }

  /** A Set succeeds exactly when it names a host, every host it names is known, all
      metadata can be decoded, and the last status, cut to 32 bits, is 1 or 2. */
  lemma SetSucceedsIff(a: AppData, arg: ArgSet, decode: Decoder)
    requires arg.Valid()
    ensures AppSet(a, arg, decode).1 <==>
      && |arg.hostnames| > 0
      && (forall j: nat | j < |arg.hostnames| :: arg.hostnames[j] in a.instances && Decodes(a, arg, decode, j))
      && (|arg.status| > 0 ==> UpOrWaiting(arg.status[|arg.hostnames| - 1]))
  {
    SetHosts(a, arg, decode);
    StopsAtEnd(a, arg, decode, 0);
    if |arg.hostnames| > 0 {
      LastKnownIff(arg, |arg.hostnames|);
    }
  }

  // ----- when nothing changes -----

  /** The stored instance already is what the entries for it write: the status of the
      last one, the set time as UpTimestamp if one takes it up, metadata that decoding
      leaves alone, and the set time as both timestamps if one is completed. */
  predicate Holds(o: Instance, arg: ArgSet, decode: Decoder, h: string, begun: nat, done: nat)
    requires arg.Valid() && done <= begun <= |arg.hostnames|
  {
    && StatusAfter(o.status, arg, h, begun) == o.status
    && (TakenUp(arg, h, begun) ==> o.upTs == arg.setTs)
    && MetadataAfter(o.metadata, arg, decode, h, begun) == o.metadata
    && (Named(arg, h, done) ==> o.latestTs == o.dirtyTs == arg.setTs)
  }

  /** Every host that the loop comes to holds already what would be written. */
  predicate AlreadySet(a: AppData, arg: ArgSet, decode: Decoder)
    requires arg.Valid()
  {
    var n := StopsAt(a, arg, decode, 0);
    forall h | h in a.instances :: Holds(a.instances[h], arg, decode, h, Begun(a, arg, n), n)
  }

  lemma HoldsIff(o: Instance, arg: ArgSet, decode: Decoder, h: string, begun: nat, done: nat)
    requires arg.Valid() && done <= begun <= |arg.hostnames|
    ensures HostAfter(o, arg, decode, h, begun, done) == o <==> Holds(o, arg, decode, h, begun, done)
    ensures HostAfter(o, arg, decode, h, begun, done).renewTs == o.renewTs
  {}

  lemma SetChangesNothingIff(a: AppData, arg: ArgSet, decode: Decoder)
    requires arg.Valid()
    ensures AppSet(a, arg, decode).0.instances == a.instances <==> AlreadySet(a, arg, decode)
  {
    SetHosts(a, arg, decode);
    var n := StopsAt(a, arg, decode, 0);
    forall h | h in a.instances {
      HoldsIff(a.instances[h], arg, decode, h, Begun(a, arg, n), n);
    }
  }

  /** When no host is listed twice the condition is one per entry: what the entry
      writes is stored already. For an entry whose metadata cannot be decoded the two
      timestamps do not matter. */
  predicate EntryHolds(o: Instance, arg: ArgSet, decode: Decoder, i: nat, done: bool)
    requires arg.Valid() && i < |arg.hostnames|
  {
    && (|arg.status| > 0 ==> o.status == Truncated(arg.status[i]))
    && (|arg.status| > 0 && Truncated(arg.status[i]) == STATUS_UP ==> o.upTs == arg.setTs)
    && (|arg.metadata| > 0 ==> decode(arg.metadata[i], o.metadata).0 == o.metadata)
    && (done ==> o.latestTs == o.dirtyTs == arg.setTs)
  }

  lemma {:induction false} Unnamed(o: Instance, arg: ArgSet, decode: Decoder, h: string, n: nat)
    requires arg.Valid() && n <= |arg.hostnames| && h !in arg.hostnames[..n]
    ensures StatusAfter(o.status, arg, h, n) == o.status && MetadataAfter(o.metadata, arg, decode, h, n) == o.metadata
    ensures !TakenUp(arg, h, n) && !Named(arg, h, n)
  {
    if n > 0 {
      assert arg.hostnames[n - 1] in arg.hostnames[..n];
      forall x | x in arg.hostnames[..n - 1] ensures x in arg.hostnames[..n] {}
      Unnamed(o, arg, decode, h, n - 1);
    }
    forall j | 0 <= j < n ensures arg.hostnames[j] != h {
      assert arg.hostnames[j] in arg.hostnames[..n];
    }
  }

  lemma {:induction false} NamedOnce(o: Instance, arg: ArgSet, decode: Decoder, i: nat, n: nat)
    requires arg.Valid() && Distinct(arg.hostnames) && i < n <= |arg.hostnames|
    ensures
      var h := arg.hostnames[i];
      && StatusAfter(o.status, arg, h, n) == (if |arg.status| > 0 then Truncated(arg.status[i]) else o.status)
      && MetadataAfter(o.metadata, arg, decode, h, n)
        == (if |arg.metadata| > 0 then decode(arg.metadata[i], o.metadata).0 else o.metadata)
      && (TakenUp(arg, h, n) <==> |arg.status| > 0 && Truncated(arg.status[i]) == STATUS_UP)
      && Named(arg, h, n)
  {
    var h := arg.hostnames[i];
    assert arg.hostnames[..n][i] == h;
    if n - 1 > i {
      NamedOnce(o, arg, decode, i, n - 1);
    } else {
      forall j | 0 <= j < i ensures arg.hostnames[..i][j] != h {}
      Unnamed(o, arg, decode, h, i);
    }
  }

  lemma EntryIff(a: AppData, arg: ArgSet, decode: Decoder, i: nat, begun: nat, done: nat)
    requires arg.Valid() && Distinct(arg.hostnames) && done <= begun <= done + 1
    requires i < begun <= |arg.hostnames| && arg.hostnames[i] in a.instances
    ensures
      var o := a.instances[arg.hostnames[i]];
      Holds(o, arg, decode, arg.hostnames[i], begun, done) <==> EntryHolds(o, arg, decode, i, i < done)
  {
    var o := a.instances[arg.hostnames[i]];
    NamedOnce(o, arg, decode, i, begun);
    if i < done {
      NamedOnce(o, arg, decode, i, done);
    } else {
      forall j | 0 <= j < done ensures arg.hostnames[..done][j] != arg.hostnames[i] {}
    }
  }

  lemma {:induction false} BegunAreKnown(a: AppData, arg: ArgSet, decode: Decoder, i: nat, j: nat)
    requires arg.Valid() && i <= |arg.hostnames| && i <= j < Begun(a, arg, StopsAt(a, arg, decode, i))
    ensures arg.hostnames[j] in a.instances
    decreases |arg.hostnames| - i
  {
    if i < j {
      BegunAreKnown(a, arg, decode, i + 1, j);
    }
  }

  lemma AlreadySetEntryByEntry(a: AppData, arg: ArgSet, decode: Decoder)
    requires arg.Valid() && Distinct(arg.hostnames)
    ensures
      var n := StopsAt(a, arg, decode, 0);
      && (forall i | 0 <= i < Begun(a, arg, n) :: arg.hostnames[i] in a.instances)
      && (AlreadySet(a, arg, decode) <==>
        forall i | 0 <= i < Begun(a, arg, n) :: EntryHolds(a.instances[arg.hostnames[i]], arg, decode, i, i < n))
  {
    var n := StopsAt(a, arg, decode, 0);
    var e := Begun(a, arg, n);
    forall i: nat | i < e ensures arg.hostnames[i] in a.instances {
      BegunAreKnown(a, arg, decode, 0, i);
    }
    forall i: nat | i < e {
      EntryIff(a, arg, decode, i, e, n);
    }
    if forall i | 0 <= i < e :: EntryHolds(a.instances[arg.hostnames[i]], arg, decode, i, i < n) {
      forall h | h in a.instances ensures Holds(a.instances[h], arg, decode, h, e, n) {
        NamedOrNot(a, arg, decode, h, e, n);
      }
    }
  }

  lemma NamedOrNot(a: AppData, arg: ArgSet, decode: Decoder, h: string, e: nat, n: nat)
    requires arg.Valid() && Distinct(arg.hostnames) && n <= e <= n + 1 && e <= |arg.hostnames| && h in a.instances
    requires forall i | 0 <= i < e :: arg.hostnames[i] in a.instances
    requires forall i | 0 <= i < e :: EntryHolds(a.instances[arg.hostnames[i]], arg, decode, i, i < n)
    ensures Holds(a.instances[h], arg, decode, h, e, n)
  {
    if h in arg.hostnames[..e] {
      var i: nat :| i < e && arg.hostnames[..e][i] == h;
      EntryIff(a, arg, decode, i, e, n);
    } else {
      Unnamed(a.instances[h], arg, decode, h, e);
      assert arg.hostnames[..n] <= arg.hostnames[..e];
    }
  }

  lemma {:induction false} MetadataKept(m: map<string, string>, arg: ArgSet, decode: Decoder, h: string, n: nat)
    requires arg.Valid() && n <= |arg.hostnames| && arg.metadata == []
    ensures MetadataAfter(m, arg, decode, h, n) == m
  {
    if n > 0 {
      MetadataKept(m, arg, decode, h, n - 1);
    }
  }

  /** With a host listed twice, an entry may write something new that a later one takes
      back, so entry by entry the condition would be too strong. */
  lemma TakenBack(a: AppData, h: string, decode: Decoder, setTs: int)
    requires h in a.instances && a.instances[h].status == STATUS_UP
    requires a.instances[h].upTs == a.instances[h].latestTs == a.instances[h].dirtyTs == setTs
    ensures
      var arg := ArgSet("", "", "", [h, h], [2, 1], [], setTs);
      && AppSet(a, arg, decode).0.instances == a.instances
      && AlreadySet(a, arg, decode) && !EntryHolds(a.instances[h], arg, decode, 0, true)
  {
    var arg := ArgSet("", "", "", [h, h], [2, 1], [], setTs);
    assert Truncated(1) == STATUS_UP && Truncated(2) == STATUS_WAITING;
    assert StopsAt(a, arg, decode, 2) == 2 && StopsAt(a, arg, decode, 1) == 2 && StopsAt(a, arg, decode, 0) == 2;
    assert StatusAfter(STATUS_UP, arg, h, 2) == STATUS_UP;
    MetadataKept(a.instances[h].metadata, arg, decode, h, 2);
    forall g | g in a.instances ensures Holds(a.instances[g], arg, decode, g, 2, 2) {
      if g != h {
        assert g !in arg.hostnames[..2];
        Unnamed(a.instances[g], arg, decode, g, 2);
      }
    }
    SetChangesNothingIff(a, arg, decode);
  }
}
