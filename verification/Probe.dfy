/** Looking for the effect of an interrupted external command in the wallet that would hold it:
    `build_action_probe_state`, `probe_inflight_external_action_result` and the polling loop
    `wait_for_inflight_external_action_result`. */
module Probe {
  import opened Wrappers
  import opened World
  import opened Actions

  datatype WalletTx = WalletTx(txid: string, comment: Option<ActionId>)

  /** What the two wallet listings return at one moment. */
  datatype View = View(txs: seq<WalletTx>, inscriptions: set<string>)

  datatype Finding = Found(text: string) | Unseen | Ambiguous(error: string)

  function BaselineFor(env: Env, id: ActionId, actor: nat, action: Action): Option<Baseline> {
    match action
    case Mint | InvalidMint | Remint | Transfer =>
      var w := env.walletName(actor);
      var (txids, inscriptions) := env.baselineOf(id, w);
      Some(Baseline(w, txids, inscriptions))
    case SendBalance => Some(Baseline(env.minerWallet, env.baselineOf(id, env.minerWallet).0, {}))
    case SpendBalance =>
      var w := env.walletName(actor);
      Some(Baseline(w, env.baselineOf(id, w).0, {}))
    case Noop => None
  }

  function FirstWithComment(txs: seq<WalletTx>, id: ActionId): (r: Option<string>)
    ensures r.Some? ==> r.value != "" && exists k | 0 <= k < |txs| ::
              txs[k].comment == Some(id) && txs[k].txid == r.value
    ensures r.None? ==> forall k | 0 <= k < |txs| :: txs[k].comment == Some(id) ==> txs[k].txid == ""
  {
    if txs == [] then None
    else if txs[0].comment == Some(id) && txs[0].txid != "" then Some(txs[0].txid)
    else FirstWithComment(txs[1..], id)
  }

  function FirstNewTx(txs: seq<WalletTx>, known: set<string>): (r: Option<string>)
    ensures r.Some? ==> r.value != "" && r.value !in known && exists k | 0 <= k < |txs| :: txs[k].txid == r.value
    ensures r.None? ==> forall k | 0 <= k < |txs| :: txs[k].txid in known + {""}
  {
    if txs == [] then None
    else if txs[0].txid != "" && txs[0].txid !in known then Some(txs[0].txid)
    else FirstNewTx(txs[1..], known)
  }

  ghost function Only(s: set<string>): string
    requires |s| == 1
  {
    var x :| x in s;
    x
  }

  lemma OnlyMember(s: set<string>, x: string)
    requires |s| == 1 && x in s
    ensures Only(s) == x
  {
    assert |s - {x}| == 0;
    assert s == {x};
  }

  ghost function Probed(plan: Plan, v: View): Finding {
    var b := if plan.baseline.Some? then plan.baseline.value else Baseline("", {}, {});
    match plan.action
    case Noop => Unseen
    case SendBalance | SpendBalance =>
      if b.wallet == "" then Unseen else
      (match FirstWithComment(v.txs, plan.id)
       case None => Unseen
       case Some(txid) => Found(txid))
    case Transfer =>
      if b.wallet == "" then Unseen else
      (match FirstNewTx(v.txs, b.txids)
       case None => Unseen
       case Some(txid) => Found(txid))
    case Mint | InvalidMint | Remint =>
      if b.wallet == "" then Unseen else
      var added := (set i | i in v.inscriptions && i != "") - b.inscriptions;
      if added == {} then
        if FirstNewTx(v.txs, b.txids).Some? then Ambiguous("wallet tx delta without inscription delta") else Unseen
      else if |added| != 1 then Ambiguous("ambiguous inscription delta")
      else Found(Only(added))
  }

  /** One poll either reads the wallet or fails to. */
  datatype Poll = Read(v: View) | QueryFailed(error: string)

  datatype Waited = Resolved(text: string) | NothingSeen | GaveUp(error: string)

  ghost function PollResult(plan: Plan, p: Poll): Finding {
    match p
    case Read(v) => Probed(plan, v)
    case QueryFailed(e) => Ambiguous(e)
  }

  /** Result of polling until the deadline: the first finding wins, otherwise any error that was
      ever met is raised, otherwise nothing was seen. */
  ghost function WaitFor(plan: Plan, polls: seq<Poll>, lastError: Option<string>): Waited {
    if polls == [] then (if lastError.Some? then GaveUp(lastError.value) else NothingSeen)
    else
      match PollResult(plan, polls[0])
      case Found(text) => Resolved(text)
      case Unseen => WaitFor(plan, polls[1..], lastError)
      case Ambiguous(e) => WaitFor(plan, polls[1..], Some(e))
  }

  /** The wait gives up on a slot only if every poll read the wallet and saw nothing; it returns
      text only if some poll found it, and earlier errors are then forgotten. */
  lemma {:induction false} WaitMeaning(plan: Plan, polls: seq<Poll>, lastError: Option<string>)
    ensures WaitFor(plan, polls, lastError).NothingSeen? <==>
              lastError.None? && forall k | 0 <= k < |polls| :: PollResult(plan, polls[k]).Unseen?
    ensures WaitFor(plan, polls, lastError).Resolved? <==>
              exists k | 0 <= k < |polls| :: PollResult(plan, polls[k]).Found?
    ensures forall x :: WaitFor(plan, polls, lastError) == Resolved(x) ==>
              exists k | 0 <= k < |polls| :: PollResult(plan, polls[k]) == Found(x)
  {
    if polls != [] {
      var rest := polls[1..];
      assert forall k | 0 < k < |polls| :: polls[k] == rest[k - 1];
      assert forall k | 0 <= k < |rest| :: rest[k] == polls[k + 1];
      match PollResult(plan, polls[0])
      case Found(text) => assert PollResult(plan, polls[0]).Found?;
      case Unseen =>
        WaitMeaning(plan, rest, lastError);
        ShiftFound(plan, polls);
      case Ambiguous(e) =>
        WaitMeaning(plan, rest, Some(e));
        ShiftFound(plan, polls);
    }
  }

  lemma ShiftFound(plan: Plan, polls: seq<Poll>)
    requires polls != [] && !PollResult(plan, polls[0]).Found?
    ensures forall x :: (exists k | 0 <= k < |polls| :: PollResult(plan, polls[k]) == Found(x)) <==>
                        (exists k | 0 <= k < |polls[1..]| :: PollResult(plan, polls[1..][k]) == Found(x))
    ensures (exists k | 0 <= k < |polls| :: PollResult(plan, polls[k]).Found?) <==>
            (exists k | 0 <= k < |polls[1..]| :: PollResult(plan, polls[1..][k]).Found?)
  {
    var rest := polls[1..];
    forall x | exists k | 0 <= k < |polls| :: PollResult(plan, polls[k]) == Found(x)
      ensures exists k | 0 <= k < |rest| :: PollResult(plan, rest[k]) == Found(x)
    {
      var k :| 0 <= k < |polls| && PollResult(plan, polls[k]) == Found(x);
      assert rest[k - 1] == polls[k];
    }
    if exists k | 0 <= k < |polls| :: PollResult(plan, polls[k]).Found? {
      var k :| 0 <= k < |polls| && PollResult(plan, polls[k]).Found?;
      assert rest[k - 1] == polls[k];
    }
  }

  /** The wallet as it is when nothing but the interrupted action has touched it since the plan:
      the command may not have run at all (`none`), or left its one transaction or inscription. */
  ghost predicate ShowsOnly(plan: Plan, v: View, done: Option<string>)
    requires plan.baseline.Some?
  {
    var b := plan.baseline.value;
    && b.wallet != ""
    && (done.Some? ==> done.value != "")
    && (match plan.action
        case Noop => true
        case SendBalance | SpendBalance =>
          forall k | 0 <= k < |v.txs| && v.txs[k].comment == Some(plan.id) :: done == Some(v.txs[k].txid)
        case Transfer =>
          forall k | 0 <= k < |v.txs| :: v.txs[k].txid in b.txids + {""} || done == Some(v.txs[k].txid)
        case Mint | InvalidMint | Remint =>
          && (forall i | i in v.inscriptions && i != "" && i !in b.inscriptions :: done == Some(i))
          && (done.None? ==> forall k | 0 <= k < |v.txs| :: v.txs[k].txid in b.txids + {""}))
  }

  /** The effect is listed: a probe that reads this view cannot miss it. */
  ghost predicate Lists(plan: Plan, v: View, done: string)
    requires plan.baseline.Some?
  {
    match plan.action
    case Noop => false
    case SendBalance | SpendBalance => WalletTx(done, Some(plan.id)) in v.txs
    case Transfer => done !in plan.baseline.value.txids && exists k | 0 <= k < |v.txs| :: v.txs[k].txid == done
    case Mint | InvalidMint | Remint => done in v.inscriptions && done !in plan.baseline.value.inscriptions
  }

  /** On an otherwise quiet wallet the probe reports exactly the truth: the id of the effect if it
      is listed, and nothing at all if the command never ran. */
  lemma ProbeTellsTheTruth(plan: Plan, v: View, done: Option<string>)
    requires plan.baseline.Some? && ShowsOnly(plan, v, done)
    ensures done.None? ==> Probed(plan, v).Unseen?
    ensures done.Some? && Lists(plan, v, done.value) ==> Probed(plan, v) == Found(done.value)
    ensures Probed(plan, v).Found? ==> done == Some(Probed(plan, v).text)
  {
    var b := plan.baseline.value;
    if MintLikeAction(plan.action) {
      var added := (set i | i in v.inscriptions && i != "") - b.inscriptions;
      if done.Some? && done.value in added {
        assert added == {done.value};
        OnlyMember(added, done.value);
      } else {
        assert added == {};
      }
    }
  }
}
