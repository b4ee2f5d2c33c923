/**
 The event feed: one-to-many delivery over a shared array of select cases whose
 active prefix shrinks as channels accept the value, while other goroutines
 subscribe and unsubscribe.
 */
module Feeds {
  type Channel = nat

  /** The channel of case 0, on which removals interrupt a send. */
  const REMOVE_SUB: Channel := 0
  const FIRST_SUB: nat := 1

  // ---------- Lists of cases ----------

  function DeleteAt<T>(s: seq<T>, i: nat): (r: seq<T>)
    requires i < |s|
    ensures |r| == |s| - 1
  {
    s[..i] + s[i + 1..]
  }

  lemma {:induction false} DeletedElement<T>(s: seq<T>, i: nat)
    requires i < |s|
    ensures multiset(DeleteAt(s, i)) + multiset{s[i]} == multiset(s)
  {
    assert s == s[..i] + [s[i]] + s[i + 1..];
  }

  /**
   Deleting a case from the whole list and shortening the active prefix by one if the case
   was in it deletes it from the prefix; otherwise the prefix is untouched.
   */
  lemma {:induction false} DeleteFromPrefix<T>(s: seq<T>, i: nat, k: nat)
    requires i < |s| && k <= |s|
    ensures i < k ==> DeleteAt(s, i)[..k - 1] == DeleteAt(s[..k], i)
    ensures k <= i ==> DeleteAt(s, i)[..k] == s[..k]
  {
  }

  /** The subscriber channels of a list of cases: all but the first. */
  ghost function Subs(s: seq<Channel>): multiset<Channel> {
    if s == [] then multiset{} else multiset(s[1..])
  }

  lemma {:induction false} SubsAfterDelete(s: seq<Channel>, i: nat)
    requires 0 < i < |s|
    ensures Subs(DeleteAt(s, i)) + multiset{s[i]} == Subs(s)
  {
    assert DeleteAt(s, i)[1..] == DeleteAt(s[1..], i - 1);
    DeletedElement(s[1..], i - 1);
  }

  /** Swapping a case with the last of the prefix and dropping that removes it from the prefix only. */
  lemma {:induction false} SubsAfterSwap(s: seq<Channel>, i: nat, k: nat)
    requires 0 < i < k <= |s|
    ensures var t := s[i := s[k - 1]][k - 1 := s[i]];
            Subs(t[..k - 1]) + multiset{s[i]} == Subs(s[..k]) && Subs(t) == Subs(s)
  {
    var t := s[i := s[k - 1]][k - 1 := s[i]];
    var u := s[1..];
    var v := u[i - 1 := u[k - 2]][k - 2 := u[i - 1]];
    assert t[1..] == v;
    assert multiset(v) == multiset(u);
    assert s[..k][1..] == u[..k - 1] && t[..k - 1][1..] == v[..k - 2];
    assert v[..k - 1] == u[..k - 1][i - 1 := u[k - 2]][k - 2 := u[i - 1]];
    assert multiset(v[..k - 1]) == multiset(u[..k - 1]);
    assert v[..k - 1] == v[..k - 2] + [s[i]];
  }

  /**
   Every subscription is in the inbox or among the cases, and so is every channel whose
   removal is under way; the latter are among the cases.
   */
  ghost predicate Accounts(handles: multiset<Channel>, removing: multiset<Channel>,
                           inbox: multiset<Channel>, subs: multiset<Channel>) {
    forall c :: removing[c] <= subs[c] && handles[c] + removing[c] == inbox[c] + subs[c]
  }

  lemma {:induction false} AccountSubscribe(handles: multiset<Channel>, removing: multiset<Channel>,
                                            inbox: multiset<Channel>, subs: multiset<Channel>, c: Channel)
    requires Accounts(handles, removing, inbox, subs)
    ensures Accounts(handles + multiset{c}, removing, inbox + multiset{c}, subs)
  {
  }

  lemma {:induction false} AccountUnsubscribe(handles: multiset<Channel>, removing: multiset<Channel>,
                                              inbox: multiset<Channel>, subs: multiset<Channel>, c: Channel)
    requires Accounts(handles, removing, inbox, subs) && c in handles
    ensures c in inbox ==> Accounts(handles - multiset{c}, removing, inbox - multiset{c}, subs)
    ensures c !in inbox ==> Accounts(handles - multiset{c}, removing + multiset{c}, inbox, subs)
  {
  }

  lemma {:induction false} AccountRemove(handles: multiset<Channel>, removing: multiset<Channel>,
                                         inbox: multiset<Channel>, subs: multiset<Channel>, c: Channel)
    requires Accounts(handles, removing, inbox, subs) && c in removing
    ensures Accounts(handles, removing - multiset{c}, inbox, subs - multiset{c})
  {
  }

  /** Moving the inbox into the cases. */
  lemma {:induction false} AccountMerge(handles: multiset<Channel>, removing: multiset<Channel>,
                                        inbox: multiset<Channel>, subs: multiset<Channel>)
    requires Accounts(handles, removing, inbox, subs)
    ensures Accounts(handles, removing, multiset{}, subs + inbox)
  {
  }

  class Feed {
    /** Backing array of the send cases; `len` of it is in use. */
    var arr: array<Channel>
    var len: nat
    var inbox: seq<Channel>
    /** Unsubscribe calls that did not find their channel in the inbox and wait to remove it from the cases. */
    var removing: multiset<Channel>
    /** The subscriptions not yet unsubscribed, one per handle. */
    var handles: multiset<Channel>

    ghost function Cases(): seq<Channel>
      requires len <= arr.Length
      reads this`arr, this`len, arr
    {
      arr[..len]
    }

    ghost predicate Valid()
      reads this, arr
    {
      && 1 <= len <= arr.Length && arr[0] == REMOVE_SUB
      && REMOVE_SUB !in Subs(Cases()) && REMOVE_SUB !in inbox
      && Accounts(handles, removing, multiset(inbox), Subs(Cases()))
    }

    constructor ()
      ensures Valid() && handles == multiset{} && fresh(arr)
    {
      var a := new Channel[1];
      a[0] := REMOVE_SUB;
      arr, len, inbox := a, 1, [];
      removing, handles := multiset{}, multiset{};
    }

    // ---------- Case lists ----------

    /** Index of the first case with the channel, or -1. */
    method Find(channel: Channel) returns (index: int)
      requires len <= arr.Length
      ensures index == -1 <==> channel !in Cases()
      ensures index != -1 ==> 0 <= index < len && arr[index] == channel && channel !in arr[..index]
    {
      for i := 0 to len
        invariant channel !in arr[..i]
      {
        if arr[i] == channel {
          return i;
        }
      }
      return -1;
    }

    /** Shifts the cases above `index` down by one, in place. */
    method Delete(index: nat)
      requires len <= arr.Length && index < len
      modifies this`len, arr
      ensures len == old(len) - 1 && len <= arr.Length && Cases() == DeleteAt(old(Cases()), index)
    {
      var j := index;
      while j + 1 < len
        invariant index <= j < len == old(len)
        invariant forall i :: 0 <= i < index ==> arr[i] == old(arr[i])
        invariant forall i :: index <= i < j ==> arr[i] == old(arr[i + 1])
        invariant forall i :: j <= i < arr.Length ==> arr[i] == old(arr[i])
      {
        arr[j] := arr[j + 1];
        j := j + 1;
      }
      len := len - 1;
    }

    /** Moves a case out of the active prefix of length `k`, in place. */
    method Deactivate(index: nat, k: nat) returns (last: nat)
      requires index < k <= len <= arr.Length
      modifies arr
      ensures last == k - 1
      ensures Cases() == old(Cases())[index := old(Cases())[k - 1]][k - 1 := old(Cases())[index]]
    {
      last := k - 1;
      arr[index], arr[last] := arr[last], arr[index];
    }

    // ---------- Subscribing ----------

    method Subscribe(channel: Channel)
      requires Valid() && channel != REMOVE_SUB
      modifies this`inbox, this`handles
      ensures Valid() && inbox == old(inbox) + [channel] && handles == old(handles) + multiset{channel}
    {
      AccountSubscribe(handles, removing, multiset(inbox), Subs(Cases()), channel);
      inbox := inbox + [channel];
      handles := handles + multiset{channel};
    }

    /** First half of an unsubscribe: done at once if the channel is in the inbox, else it waits. */
    method Unsubscribe(channel: Channel)
      requires Valid() && channel in handles
      modifies this`inbox, this`handles, this`removing
      ensures Valid() && handles == old(handles) - multiset{channel}
      ensures if channel in old(inbox) then
                removing == old(removing) && multiset(inbox) == old(multiset(inbox)) - multiset{channel}
              else inbox == old(inbox) && removing == old(removing) + multiset{channel}
    {
      hide Accounts, Subs;
      assert channel in inbox <==> channel in multiset(inbox);
      AccountUnsubscribe(handles, removing, multiset(inbox), Subs(Cases()), channel);
      handles := handles - multiset{channel};
      if channel in inbox {
        inbox := DeleteFirst(inbox, channel);
      } else {
        removing := removing + multiset{channel};
      }
    }

    /** A waiting removal always finds its case. */
    method RemoveCase(channel: Channel) returns (index: nat)
      requires Valid() && channel in removing
      modifies this`len, this`removing, arr
      ensures Valid() && removing == old(removing) - multiset{channel}
      ensures 0 < index < old(len) && channel == old(Cases())[index]
      ensures len == old(len) - 1 && Cases() == DeleteAt(old(Cases()), index)
    {
      hide Accounts, Subs, DeleteAt;
      RemovingIsSub(handles, removing, multiset(inbox), Subs(Cases()), channel);
      CasesWithSubs(Cases(), channel);
      var i := Find(channel);
      index := i;
      SubsAfterDelete(Cases(), index);
      AccountRemove(handles, removing, multiset(inbox), Subs(Cases()), channel);
      assert Subs(DeleteAt(Cases(), index)) == Subs(Cases()) - multiset{channel};
      FirstKept(Cases(), index);
      Delete(index);
      removing := removing - multiset{channel};
    }

    /** Second half of an unsubscribe when no send is in progress. */
    method FinishUnsubscribe(channel: Channel)
      requires Valid() && channel in removing
      modifies this`len, this`removing, arr
      ensures Valid() && removing == old(removing) - multiset{channel}
      ensures Subs(Cases()) == old(Subs(Cases())) - multiset{channel}
    {
      ghost var before := Cases();
      var index := RemoveCase(channel);
      SubsAfterDelete(before, index);
      assert Subs(Cases()) == Subs(before) - multiset{channel};
    }

    /** Any number of subscribe and unsubscribe calls by other goroutines. */
    method Interfere()
      requires Valid()
      modifies this`inbox, this`handles, this`removing
      ensures Valid()
    {
      hide Accounts, Subs;
      var calls :| 0 <= calls;
      for i := 0 to calls
        invariant Valid()
      {
        var subscribing: bool := *;
        var channel: Channel :| 0 <= channel;
        if subscribing {
          if channel != REMOVE_SUB {
            Subscribe(channel);
          }
        } else if channel in handles {
          Unsubscribe(channel);
        }
      }
    }

    // ---------- Sending ----------

    /** Moves the newly subscribed channels to the cases. */
    method MergeInbox()
      requires Valid()
      modifies this`arr, this`len, this`inbox
      ensures Valid() && inbox == [] && Subs(Cases()) == old(Subs(Cases())) + old(multiset(inbox))
      ensures fresh(arr)
    {
      hide Accounts;
      AccountMerge(handles, removing, multiset(inbox), Subs(Cases()));
      var all := arr[..len] + inbox;
      var a := new Channel[|all|](i requires 0 <= i < |all| => all[i]);
      assert a[..|all|] == all;
      assert all[1..] == arr[..len][1..] + inbox;
      arr, len, inbox := a, |all|, [];
    }

    /** Accepted by a channel: the case leaves the active prefix. */
    method Deliver(index: nat, k: nat, ghost start: multiset<Channel>, ghost sent: multiset<Channel>,
                   ghost dropped: multiset<Channel>) returns (last: nat, ghost more: multiset<Channel>)
      requires Valid() && FIRST_SUB <= index < k <= len && Ledger(Subs(arr[..k]), sent, dropped, start)
      modifies arr
      ensures Valid() && last == k - 1 && Subs(Cases()) == old(Subs(Cases()))
      ensures |more| == |sent| + 1 && Ledger(Subs(arr[..last]), more, dropped, start)
    {
      hide Accounts, Subs;
      ghost var before := Cases();
      SubsAfterSwap(before, index, k);
      assert arr[..k] == before[..k];
      more := sent + multiset{arr[index]};
      LedgerDeliver(Subs(before[..k]), sent, dropped, start, before[index]);
      last := Deactivate(index, k);
      assert arr[..last] == Cases()[..last];
      assert Subs(arr[..last]) == Subs(before[..k]) - multiset{before[index]};
    }

    /** One pass over the active cases, trying each without blocking. */
    method TrySendAll(active: nat, count: nat, ghost start: multiset<Channel>, ghost sent: multiset<Channel>,
                      ghost dropped: multiset<Channel>)
      returns (k: nat, nsent: nat, ghost more: multiset<Channel>)
      requires Valid() && FIRST_SUB <= active <= len && count == |sent|
      requires Ledger(Subs(arr[..active]), sent, dropped, start)
      modifies arr
      ensures Valid() && FIRST_SUB <= k <= active && nsent == |more| && Subs(Cases()) == old(Subs(Cases()))
      ensures Ledger(Subs(arr[..k]), more, dropped, start)
    {
      hide Accounts, Subs, Ledger;
      k, nsent, more := active, count, sent;
      var i := FIRST_SUB;
      while i < k
        invariant Valid() && FIRST_SUB <= i && FIRST_SUB <= k <= active && nsent == |more|
        invariant Subs(Cases()) == old(Subs(Cases())) && Ledger(Subs(arr[..k]), more, dropped, start)
        decreases k - i
      {
        var ready: bool := *;
        if ready {
          nsent := nsent + 1;
          k, more := Deliver(i, k, start, more, dropped);
        } else {
          i := i + 1;
        }
      }
    }

    /** A removal received while sending: an undelivered case leaves the active prefix with it. */
    method RemoveWhileSending(channel: Channel, k: nat, ghost start: multiset<Channel>, ghost sent: multiset<Channel>,
                              ghost dropped: multiset<Channel>)
      returns (active: nat, ghost lost: multiset<Channel>)
      requires Valid() && channel in removing && FIRST_SUB <= k <= len && Ledger(Subs(arr[..k]), sent, dropped, start)
      modifies this`len, this`removing, arr
      ensures Valid() && len == old(len) - 1 && FIRST_SUB <= active <= len
      ensures active in {k, k - 1} && lost == if active == k then dropped else dropped + multiset{channel}
      ensures channel in old(Subs(Cases())) && Subs(Cases()) == old(Subs(Cases())) - multiset{channel}
      ensures Ledger(Subs(arr[..active]), sent, lost, start)
    {
      hide Accounts, Subs;
      ghost var before := Cases();
      active, lost := k, dropped;
      assert arr[..k] == before[..k];
      var index := RemoveCase(channel);
      SubsAfterDelete(before, index);
      assert Subs(Cases()) == Subs(before) - multiset{channel};
      DeleteFromPrefix(before, index, k);
      if index >= k {
        assert arr[..k] == Cases()[..k];
      } else {
        active := k - 1;
        assert arr[..active] == Cases()[..active];
        lost := dropped + multiset{channel};
        SubsAfterDelete(before[..k], index);
        LedgerDrop(Subs(before[..k]), sent, dropped, start, channel);
        assert Subs(arr[..active]) == Subs(before[..k]) - multiset{channel};
      }
    }

    /**
     Delivers a value to every subscriber. For every interleaving of channel readiness
     with subscribe and unsubscribe calls: each channel is sent the value at most as often as
     it was subscribed at the start, and at least as often as it was and has not been removed
     meanwhile; the result counts the deliveries; and the send ends.
     */
    method Send() returns (nsent: nat, ghost start: multiset<Channel>, ghost sent: multiset<Channel>,
                           ghost removed: multiset<Channel>)
      requires Valid()
      modifies this, arr
      ensures Valid()
      ensures start == old(Subs(Cases())) + old(multiset(inbox))
      ensures nsent == |sent|
      ensures forall c :: sent[c] <= start[c] <= sent[c] + removed[c]
      ensures forall c :: Subs(Cases())[c] + removed[c] == start[c]
    {
      hide Accounts, Subs, Ledger, Kept;
      MergeInbox();
      start, sent, removed := Subs(Cases()), multiset{}, multiset{};
      ghost var dropped := multiset{};
      nsent := 0;
      var k := len;
      AllActive(start);
      while true
        invariant Valid() && FIRST_SUB <= k <= len && nsent == |sent| && fresh(arr)
        invariant Ledger(Subs(arr[..k]), sent, dropped, start)
        invariant Kept(Subs(Cases()), dropped, removed, start)
        decreases k + len
      {
        k, nsent, sent := TrySendAll(k, nsent, start, sent, dropped);
        if k == FIRST_SUB {
          break;
        }
        Interfere();
        var interrupted: bool := *;
        if interrupted && removing != multiset{} {
          var channel :| channel in removing;
          ghost var kept, was := Subs(Cases()), dropped;
          k, dropped := RemoveWhileSending(channel, k, start, sent, dropped);
          KeptAfterRemoval(kept, was, dropped, removed, start, channel);
          removed := removed + multiset{channel};
        } else {
          var chosen: nat :| FIRST_SUB <= chosen < k;
          k, sent := Deliver(chosen, k, start, sent, dropped);
          nsent := nsent + 1;
        }
      }
      NoneLeft(arr[..k], Subs(Cases()), sent, dropped, removed, start);
    }
  }

  /** Every channel's subscriptions at the start are still active, sent to, or dropped before that. */
  ghost predicate Ledger(active: multiset<Channel>, sent: multiset<Channel>, dropped: multiset<Channel>,
                         start: multiset<Channel>) {
    forall c :: active[c] + sent[c] + dropped[c] == start[c]
  }

  lemma {:induction false} LedgerDeliver(active: multiset<Channel>, sent: multiset<Channel>, dropped: multiset<Channel>,
                                         start: multiset<Channel>, c: Channel)
    requires Ledger(active, sent, dropped, start) && c in active
    ensures Ledger(active - multiset{c}, sent + multiset{c}, dropped, start)
  {
  }

  lemma {:induction false} LedgerDrop(active: multiset<Channel>, sent: multiset<Channel>, dropped: multiset<Channel>,
                                      start: multiset<Channel>, c: Channel)
    requires Ledger(active, sent, dropped, start) && c in active
    ensures Ledger(active - multiset{c}, sent, dropped + multiset{c}, start)
  {
  }

  /** What has not been removed stays subscribed; what was dropped undelivered was removed. */
  ghost predicate Kept(subs: multiset<Channel>, dropped: multiset<Channel>, removed: multiset<Channel>,
                       start: multiset<Channel>) {
    forall c :: dropped[c] <= removed[c] && subs[c] + removed[c] == start[c]
  }

  lemma {:induction false} AllActive(start: multiset<Channel>)
    ensures Ledger(start, multiset{}, multiset{}, start) && Kept(start, multiset{}, multiset{}, start)
  {
  }

  lemma {:induction false} KeptAfterRemoval(subs: multiset<Channel>, was: multiset<Channel>, dropped: multiset<Channel>,
                                            removed: multiset<Channel>, start: multiset<Channel>, c: Channel)
    requires Kept(subs, was, removed, start) && c in subs && (dropped == was || dropped == was + multiset{c})
    ensures Kept(subs - multiset{c}, dropped, removed + multiset{c}, start)
  {
  }

  lemma {:induction false} NoneLeft(active: seq<Channel>, subs: multiset<Channel>, sent: multiset<Channel>,
                                    dropped: multiset<Channel>, removed: multiset<Channel>, start: multiset<Channel>)
    requires |active| == FIRST_SUB && Ledger(Subs(active), sent, dropped, start) && Kept(subs, dropped, removed, start)
    ensures forall c :: sent[c] <= start[c] <= sent[c] + removed[c]
    ensures forall c :: subs[c] + removed[c] == start[c]
  {
    assert Subs(active) == multiset{};
    forall c ensures sent[c] <= start[c] <= sent[c] + removed[c] {
      assert Subs(active)[c] + sent[c] + dropped[c] == start[c];
    }
  }

  lemma {:induction false} FirstKept(s: seq<Channel>, i: nat)
    requires 0 < i < |s|
    ensures DeleteAt(s, i) != [] && DeleteAt(s, i)[0] == s[0]
  {
  }

  lemma {:induction false} RemovingIsSub(handles: multiset<Channel>, removing: multiset<Channel>,
                                         inbox: multiset<Channel>, subs: multiset<Channel>, c: Channel)
    requires Accounts(handles, removing, inbox, subs) && c in removing
    ensures c in subs
  {
    assert removing[c] <= subs[c];
  }

  lemma {:induction false} CasesWithSubs(s: seq<Channel>, c: Channel)
    requires s != [] && c in Subs(s)
    ensures c in s && (s[0] == REMOVE_SUB && REMOVE_SUB !in Subs(s) ==> c != s[0])
  {
    assert c in s[1..];
  }

  /** Deletes the first occurrence of a channel from a list. */
  method DeleteFirst(s: seq<Channel>, c: Channel) returns (r: seq<Channel>)
    requires c in s
    ensures multiset(r) == multiset(s) - multiset{c}
    ensures forall x :: x in r ==> x in s
  {
    var i: nat := 0;
    while s[i] != c
      invariant i < |s| && c in s[i..]
      decreases |s| - i
    {
      assert s[i..] == [s[i]] + s[i + 1..];
      i := i + 1;
    }
    DeletedElement(s, i);
    r := DeleteAt(s, i);
    assert multiset(r) == multiset(s) - multiset{c};
  }
}
