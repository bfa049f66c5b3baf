/** `AccountConcurrency`: the per-account slots, updated in place, each method one lock section
    proved against the section's specification function in `AccountSlots`. */
module AccountConcurrency {
  import opened AccountSlots

  /** The oneshot channels of all waiters, named by waiter id. */
  class Oneshots {
    var open: set<nat>
    var sent: set<nat>

    constructor ()
      ensures open == {} && sent == {}
    {
      open, sent := {}, {};
    }

    method Send(id: nat) returns (ok: bool)
      modifies `sent
      ensures ok == (id in open)
      ensures sent == if ok then old(sent) + {id} else old(sent)
    {
      ok := id in open;
      if ok {
        sent := sent + {id};
      }
    }
  }

  class AccountSlot {
    var limit: nat
    var running: nat
    var waiters: seq<nat>

    constructor (limit: nat)
      ensures Value() == Slot(limit, 0, [])
    {
      this.limit, running, waiters := limit, 0, [];
    }

    function Value(): Slot
      reads this
    {
      Slot(limit, running, waiters)
    }

    predicate HasCapacity()
      reads this
    {
      limit == 0 || running < limit
    }

    method DispatchQueue(channels: Oneshots) returns (ghost granted: seq<nat>)
      modifies this, channels`sent
      ensures (Value(), granted) == Dispatch(old(Value()), channels.open)
      ensures channels.sent == old(channels.sent) + Ids(granted)
    {
      granted := [];
      assert granted + Dispatch(Value(), channels.open).1 == Dispatch(Value(), channels.open).1;
      while HasCapacity()
        invariant var (t, rest) := Dispatch(Value(), channels.open);
                  Dispatch(old(Value()), channels.open) == (t, granted + rest)
        invariant channels.sent == old(channels.sent) + Ids(granted)
        invariant channels.open == old(channels.open)
        decreases |waiters|
      {
        if waiters == [] {
          break;
        }
        var id := waiters[0];
        ghost var before := granted;
        waiters := waiters[1..];
        running := running + 1;
        var ok := channels.Send(id);
        if ok {
          granted := granted + [id];
          ghost var rest := Dispatch(Value(), channels.open).1;
          assert before + ([id] + rest) == granted + rest;
        } else {
          running := running - 1;
        }
      }
      assert granted + [] == granted;
    }
  }

  class AccountConcurrency {
    var accounts: map<string, AccountSlot>
    var nextWaiterId: nat
    const channels: Oneshots

    ghost predicate Valid()
      reads this
    {
      forall a, b :: a in accounts && b in accounts && accounts[a] == accounts[b] ==> a == b
    }

    ghost function State(): Shared
      reads this, channels, accounts.Values
    {
      Shared(map a | a in accounts :: accounts[a].Value(), nextWaiterId, channels.open, channels.sent)
    }

    /** Writing one slot object updates exactly one entry of the table. */
    twostate lemma OneSlotWritten(a: string)
      requires old(Valid()) && accounts == old(accounts) && a in accounts
      requires forall b :: b in accounts && b != a ==> accounts[b].Value() == old(accounts[b].Value())
      ensures State().accounts == old(State()).accounts[a := accounts[a].Value()]
    {
    }

    twostate lemma OnlyIdTaken()
      requires accounts == old(accounts) && unchanged(channels) && unchanged(accounts.Values)
      ensures State() == old(State()).(nextId := nextWaiterId)
    {
      assert State().accounts == old(State()).accounts;
    }

    constructor ()
      ensures Valid() && fresh(channels) && fresh(accounts.Values)
      ensures State() == Shared(map[], 0, {}, {})
    {
      accounts := map[];
      nextWaiterId := 0;
      channels := new Oneshots();
    }

    method Entry(a: string, limit: nat) returns (slot: AccountSlot)
      requires Valid()
      modifies `accounts
      ensures Valid() && fresh(accounts.Values - old(accounts.Values))
      ensures a in accounts && accounts[a] == slot
      ensures a in old(accounts) ==> accounts == old(accounts)
      ensures State() == EntryOrInsert(old(State()), a, limit)
    {
      if a !in accounts {
        slot := new AccountSlot(limit);
        accounts := accounts[a := slot];
      }
      slot := accounts[a];
    }

    method TryAcquireSlot(a: string, limit: nat) returns (permit: bool)
      requires Valid()
      modifies this, accounts.Values
      ensures Valid() && fresh(accounts.Values - old(accounts.Values))
      ensures (State(), permit) == TryAcquire(old(State()), a, limit)
    {
      var slot := Entry(a, limit);
      label entered:
      if slot.waiters == [] && slot.HasCapacity() {
        slot.running := slot.running + 1;
        permit := true;
        OneSlotWritten@entered(a);
      } else {
        permit := false;
      }
    }

    /** The lock section of `acquire`; an enqueued caller then awaits its receiver. */
    method EnterQueue(a: string, limit: nat) returns (entry: Entry)
      requires Valid()
      modifies this, channels, accounts.Values
      ensures Valid() && fresh(accounts.Values - old(accounts.Values))
      ensures State() == AcquireEnter(old(State()), a, limit).0
      ensures entry == AcquireEnter(old(State()), a, limit).1
    {
      var id := nextWaiterId;
      nextWaiterId := nextWaiterId + 1;
      OnlyIdTaken();
      var slot := Entry(a, limit);
      label entered:
      ghost var table := State();
      if slot.waiters == [] && slot.HasCapacity() {
        slot.running := slot.running + 1;
        entry := Immediate;
        OneSlotWritten@entered(a);
        assert State() == TakeSlot(table, a);
      } else {
        channels.open := channels.open + {id};
        slot.waiters := slot.waiters + [id];
        entry := Enqueued(id);
        OneSlotWritten@entered(a);
      }
    }

    method ChangeLimit(a: string, limit: nat) returns (ghost granted: seq<nat>)
      requires Valid()
      modifies this, channels, accounts.Values
      ensures Valid() && fresh(accounts.Values - old(accounts.Values))
      ensures (State(), granted) == SetLimit(old(State()), a, limit)
    {
      var slot := Entry(a, limit);
      label entered:
      slot.limit := limit;
      granted := slot.DispatchQueue(channels);
      OneSlotWritten@entered(a);
    }

    method ForgetAccount(a: string)
      requires Valid()
      modifies this
      ensures Valid() && accounts.Values <= old(accounts.Values)
      ensures a in accounts <==> a in old(accounts) && (old(accounts[a].running) > 0 || old(accounts[a].waiters) != [])
      ensures forall b :: b != a ==> (b in accounts <==> b in old(accounts))
      ensures forall b :: b in accounts ==> accounts[b] == old(accounts)[b]
      ensures State() == Forget(old(State()), a)
    {
      if a in accounts && accounts[a].running == 0 && accounts[a].waiters == [] {
        accounts := accounts - {a};
      }
    }

    method ReleaseSlot(a: string) returns (ghost granted: seq<nat>)
      requires Valid()
      modifies channels, accounts.Values
      ensures (State(), granted) == Release(old(State()), a)
    {
      granted := [];
      if a in accounts {
        var slot := accounts[a];
        slot.running := SaturatingDecrement(slot.running);
        granted := slot.DispatchQueue(channels);
        OneSlotWritten(a);
      }
    }

    /** The first lock section of `QueuedWaiter::drop`. */
    method DecideCancel(a: string, id: nat) returns (decision: Decision)
      requires Valid()
      modifies channels, accounts.Values
      ensures (State(), decision) == CancelDecide(old(State()), a, id)
    {
      if a !in accounts {
        channels.open := channels.open - {id};
        assert State().accounts == old(State()).accounts;
        return AccountMissing;
      }
      var slot := accounts[a];
      var position := Position(slot.waiters, id);
      if position < |slot.waiters| {
        slot.waiters := RemoveAt(slot.waiters, position);
        OneSlotWritten(a);
        decision := LeftQueue;
      } else if id in channels.sent {
        return WasGranted;
      } else {
        decision := NeverGranted;
      }
      ghost var left := State();
      assert left.accounts == CancelDecide(old(State()), a, id).0.accounts;
      channels.open := channels.open - {id};
      assert State().accounts == left.accounts;
    }

    method Load(a: string) returns (running: nat, queued: nat)
      ensures a in accounts ==>
                running == State().accounts[a].running && queued == |State().accounts[a].waiters|
      ensures a !in accounts ==> running == 0 && queued == 0
    {
      if a in accounts {
        running, queued := accounts[a].running, |accounts[a].waiters|;
      } else {
        running, queued := 0, 0;
      }
    }
  }
}
