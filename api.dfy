/** The back end's rules for payment requests (Mirotor/api/views.py): the `pre_save`
    hook on `Request`, which keeps a request's owner, amount and tariff fixed once it is
    stored and extends the owner's subscription when an administrator approves it,
    and the queryset of requests still waiting for an administrator. Dates are day
    numbers; `datetime.today()` is the parameter `today`. */
module Api {
  import opened Wrappers
  import opened Seqs

  /** A `Request` row: the fields the hook and the admin list look at. */
  datatype Req = Req(telegramId: int, amount: int, status: bool, tariff: int, viewed: bool)

  /** The exceptions the hook raises; `UserDoesNotExist` is `User.DoesNotExist`
      from `User.objects.get`. */
  datatype HookError = ChangingTelegramId | ChangingAmount | ChangingTariff | UserDoesNotExist

  function Max(a: int, b: int): int {
    if a >= b then a else b
  }

  /** `max(subscription_end, today) + timedelta(days=tariff)` */
  function Extended(end: int, today: int, tariff: int): int {
    Max(end, today) + tariff
  }

  /** What the hook does when request `pk` (`None` for a row not yet saved) is saved
      as `instance`: the exception it raises, if any, and the `subscription_end` of
      every user afterwards (`users` maps a Telegram id to its day number). */
  function Hook(requests: map<nat, Req>, users: map<int, int>, pk: Option<nat>, instance: Req, today: int)
    : (r: (Option<HookError>, map<int, int>))
    ensures r.0.Some? ==> r.1 == users
    ensures r.1.Keys == users.Keys
  {
    if pk.None? || pk.value !in requests then (None, users)
    else
      var current := requests[pk.value];
      if current.telegramId != instance.telegramId then (Some(ChangingTelegramId), users)
      else if current.amount != instance.amount then (Some(ChangingAmount), users)
      else if current.tariff != instance.tariff then (Some(ChangingTariff), users)
      else if !current.status && instance.status then
        if instance.telegramId !in users then (Some(UserDoesNotExist), users)
        else (None, users[instance.telegramId := Extended(users[instance.telegramId], today, instance.tariff)])
      else (None, users)
  }

  /** The two tables the hook reads and writes. */
  class Database {
    var requests: map<nat, Req>
    var users: map<int, int>

    constructor (requests: map<nat, Req>, users: map<int, int>)
      ensures this.requests == requests && this.users == users
    {
      this.requests := requests;
      this.users := users;
    }

    /** `my_callback`, run by Django before a `Request` is written. It updates the
        user row in place and leaves the request table to the save that follows. */
    method MyCallback(pk: Option<nat>, instance: Req, today: int) returns (error: Option<HookError>)
      modifies this
      ensures requests == old(requests)
      ensures (error, users) == Hook(old(requests), old(users), pk, instance, today)
    {
      if pk.None? || pk.value !in requests {
        return None;
      }
      var current := requests[pk.value];
      if current.telegramId != instance.telegramId {
        return Some(ChangingTelegramId);
      }
      if current.amount != instance.amount {
        return Some(ChangingAmount);
      }
      if current.tariff != instance.tariff {
        return Some(ChangingTariff);
      }
      if !current.status && instance.status {
        if instance.telegramId !in users {
          return Some(UserDoesNotExist);
        }
        var end := users[instance.telegramId];
        users := users[instance.telegramId := Max(end, today) + instance.tariff];
      }
      return None;
    }
  }

  /** Saving a request that is not stored yet checks nothing and extends nothing. */
  lemma HookNewRequest(requests: map<nat, Req>, users: map<int, int>, pk: Option<nat>, instance: Req, today: int)
    requires pk.None? || pk.value !in requests
    ensures Hook(requests, users, pk, instance, today) == (None, users)
  {
  }

  /** The fixed fields are checked in the order owner, amount, tariff; the first
      that differs names the exception, and a raised exception changes no user. */
  lemma HookImmutableFields(requests: map<nat, Req>, users: map<int, int>, pk: nat, instance: Req, today: int)
    requires pk in requests
    ensures var (error, after) := Hook(requests, users, Some(pk), instance, today);
      var current := requests[pk];
      && (error == Some(ChangingTelegramId) <==> current.telegramId != instance.telegramId)
      && (error == Some(ChangingAmount) <==>
            current.telegramId == instance.telegramId && current.amount != instance.amount)
      && (error == Some(ChangingTariff) <==>
            current.telegramId == instance.telegramId && current.amount == instance.amount
            && current.tariff != instance.tariff)
      && (error.Some? ==> after == users)
  {
  }

  /** A user's subscription changes only when a stored request goes from not approved
      to approved, and then only the owner's, to the extended end. */
  lemma HookExtendsOnApprovalOnly(requests: map<nat, Req>, users: map<int, int>, pk: Option<nat>, instance: Req, today: int)
    ensures var (error, after) := Hook(requests, users, pk, instance, today);
      after != users ==>
        && pk.Some? && pk.value in requests
        && !requests[pk.value].status && instance.status
        && error == None
        && instance.telegramId in users
        && after == users[instance.telegramId := Extended(users[instance.telegramId], today, instance.tariff)]
  {
  }

  /** An approval of a request whose fixed fields are unchanged extends the owner's
      subscription, or raises `UserDoesNotExist` when there is no such user. */
  lemma HookApproval(requests: map<nat, Req>, users: map<int, int>, pk: nat, instance: Req, today: int)
    requires pk in requests
    requires var current := requests[pk];
      current.telegramId == instance.telegramId && current.amount == instance.amount
      && current.tariff == instance.tariff && !current.status && instance.status
    ensures var (error, after) := Hook(requests, users, Some(pk), instance, today);
      && (error == Some(UserDoesNotExist) <==> instance.telegramId !in users)
      && (instance.telegramId in users ==>
            error == None && instance.telegramId in after
            && after[instance.telegramId] == Extended(users[instance.telegramId], today, instance.tariff))
  {
  }

  /** The extended end counts the tariff from the later of the old end and today:
      for a tariff of zero or more days it is no earlier than either. */
  lemma ExtendedBounds(end: int, today: int, tariff: int)
    requires tariff >= 0
    ensures Extended(end, today, tariff) >= today + tariff
    ensures Extended(end, today, tariff) >= end
    ensures end >= today ==> Extended(end, today, tariff) == end + tariff
    ensures end < today ==> Extended(end, today, tariff) == today + tariff
  {
  }

  /** Re-saving an approved request, or saving a request as not approved, never
      changes a subscription. */
  lemma HookIdempotent(requests: map<nat, Req>, users: map<int, int>, pk: nat, instance: Req, today: int)
    requires pk in requests
    requires requests[pk].status || !instance.status
    ensures Hook(requests, users, Some(pk), instance, today).1 == users
  {
  }

  /** Saving the same request a second time, after the first save stored it, changes
      nothing more, whatever the day. */
  lemma HookResave(requests: map<nat, Req>, users: map<int, int>, pk: nat, instance: Req, today: int, later: int)
    requires Hook(requests, users, Some(pk), instance, today).0 == None
    ensures var after := Hook(requests, users, Some(pk), instance, today).1;
      Hook(requests[pk := instance], after, Some(pk), instance, later) == (None, after)
  {
  }

  /** Only the owner's row can change: every other user keeps its subscription end,
      and no user is added or removed. */
  lemma HookOnlyOwner(requests: map<nat, Req>, users: map<int, int>, pk: Option<nat>, instance: Req, today: int)
    ensures var after := Hook(requests, users, pk, instance, today).1;
      && after.Keys == users.Keys
      && forall u :: u in users && u != instance.telegramId ==> after[u] == users[u]
  {
  }

  /** A request still waiting for an administrator: not approved and not looked at. */
  predicate IsPending(r: Req) {
    !r.status && !r.viewed
  }

  /** `Request.objects.filter(status=False, viewed=False)`, in table order. */
  function Pending(rs: seq<Req>): (p: seq<Req>)
    ensures |p| <= |rs|
  {
    if rs == [] then []
    else (if IsPending(rs[0]) then [rs[0]] else []) + Pending(rs[1..])
  }

  /** The admin list holds exactly the waiting requests. */
  lemma {:induction false} PendingMembers(rs: seq<Req>)
    ensures forall r :: r in Pending(rs) <==> r in rs && IsPending(r)
  {
    if rs != [] {
      PendingMembers(rs[1..]);
      assert rs == [rs[0]] + rs[1..];
    }
  }

  /** The admin list holds every waiting request as many times as the table does,
      and no other request at all. */
  lemma {:induction false} PendingCounts(rs: seq<Req>)
    ensures forall r :: multiset(Pending(rs))[r] == if IsPending(r) then multiset(rs)[r] else 0
  {
    if rs != [] {
      PendingCounts(rs[1..]);
      assert rs == [rs[0]] + rs[1..];
    }
  }

  /** The admin list keeps the table's order. */
  lemma {:induction false} PendingKeepsOrder(rs: seq<Req>)
    ensures Subsequence(Pending(rs), rs)
  {
    if rs != [] {
      PendingKeepsOrder(rs[1..]);
      var p := Pending(rs);
      if IsPending(rs[0]) {
        assert p == [rs[0]] + Pending(rs[1..]);
        assert p[0] == rs[0] && p[1..] == Pending(rs[1..]);
      } else {
        assert p == Pending(rs[1..]);
      }
    }
  }
}
