/** The deferred ledger (`AToken`): `mint` and `transferTo` only queue a
    transfer action; `reduce` later folds the queue over the balances root,
    taking each action's witnesses from a caller-supplied evidence array. */
module ATokenLedger {
  import opened Fields
  import opened Outcomes
  import opened MerkleMaps
  import opened TokenLedger

  /** Size of the evidence array and the reducer's bound on pending actions. */
  const MaxActions: nat := 10

  /** One evidence record: the two leaves' balances and witnesses for the
      action with identifier `id`. `active` is carried but never read. */
  datatype ActionReduceElement = ActionReduceElement(
    id: Field,
    active: bool,
    balanceABefore: Field,
    balanceAWitness: Witness,
    balanceBBefore: Field,
    balanceBWitness: Witness)

  /** A queued request. A mint has `from == EmptyPublicKey`. */
  datatype TransferAction = TransferAction(from: PublicKey, to: PublicKey, amount: Field)

  /** The reducer's accumulator: the identifier to look up and the running root. */
  datatype ReduceState = ReduceState(id: Field, newRoot: Root)

  /** The position of the last element carrying `id`, if any. */
  function LastMatch(elements: seq<ActionReduceElement>, id: Field): (r: Option<nat>)
    ensures r.Some? ==> r.value < |elements| && elements[r.value].id == id
    ensures r.Some? ==> forall j :: r.value < j < |elements| ==> elements[j].id != id
    ensures r.None? <==> forall j :: 0 <= j < |elements| ==> elements[j].id != id
    decreases |elements|
  {
    if elements == [] then None
    else if elements[|elements| - 1].id == id then Some(|elements| - 1)
    else LastMatch(elements[..|elements| - 1], id)
  }

  /** What `findElement(id)` yields: the last element whose `id` matches, or a
      failure when none does. */
  function Lookup(elements: seq<ActionReduceElement>, id: Field): (r: Result<ActionReduceElement>)
    ensures r.Failure? <==> forall j :: 0 <= j < |elements| ==> elements[j].id != id
    ensures r.Failure? ==> r.error == ElementNotFound
    ensures r.Success? ==> exists j :: 0 <= j < |elements| && elements[j] == r.value && elements[j].id == id &&
                                      forall k :: j < k < |elements| ==> elements[k].id != id
  {
    match LastMatch(elements, id)
    case None => Failure(ElementNotFound)
    case Some(j) => Success(elements[j])
  }

  /** `ActionReduceElements.findElement`: a pass over all ten slots that keeps
      the latest match and whether any slot matched. */
  method FindElement(elements: seq<ActionReduceElement>, id: Field) returns (r: Result<ActionReduceElement>)
    requires |elements| == MaxActions
    ensures r == Lookup(elements, id)
  {
    var res := elements[0];
    var found := false;
    for i := 0 to MaxActions
      invariant match LastMatch(elements[..i], id)
                case None => !found
                case Some(j) => found && res == elements[j]
    {
      assert elements[..i + 1][..i] == elements[..i];
      var match_ := elements[i].id == id;
      if match_ {
        res := elements[i];
      }
      found := found || match_;
    }
    assert elements[..MaxActions] == elements;
    if !found {
      return Failure(ElementNotFound);
    }
    r := Success(res);
  }

  /** `updateBalanceTree`: the chained two-leaf update of `Token.transferTo`
      applied to the running root, with the witnesses of `element`. Neither
      `action.from` nor `action.to` is compared with a witness key. */
  function UpdateBalanceTree(curState: Root, action: TransferAction, element: ActionReduceElement): (r: Result<Root>)
    ensures r.Success? <==>
      && Authenticates(element.balanceAWitness, curState)
      && Get(curState, element.balanceAWitness.key) == element.balanceABefore
      && action.amount <= element.balanceABefore
      && var debited := Debited(curState, element.balanceAWitness.key, element.balanceABefore, action.amount);
         Authenticates(element.balanceBWitness, debited) && Get(debited, element.balanceBWitness.key) == element.balanceBBefore
    ensures r.Success? ==>
      Get(r.value, element.balanceBWitness.key) == Add(element.balanceBBefore, Add(element.balanceBBefore, action.amount))
    ensures r.Success? && element.balanceAWitness.key != element.balanceBWitness.key ==>
      Get(r.value, element.balanceAWitness.key) == element.balanceABefore - action.amount
    ensures r.Success? ==> forall k :: k != element.balanceAWitness.key && k != element.balanceBWitness.key ==>
      Get(r.value, k) == Get(curState, k)
  {
    ChainedTransfer(curState, action.amount,
                    element.balanceABefore, element.balanceAWitness,
                    element.balanceBBefore, element.balanceBWitness)
  }

  /** The deferred debit is not tied to the action's sender or receiver: any
      two actions with the same amount settle identically against the same
      evidence. */
  lemma UpdateBalanceTreeIgnoresParties(curState: Root, a1: TransferAction, a2: TransferAction, element: ActionReduceElement)
    requires a1.amount == a2.amount
    ensures UpdateBalanceTree(curState, a1, element) == UpdateBalanceTree(curState, a2, element)
  {
  }

  /** The reducer callback: look up the evidence for `state.id`, apply the
      action to the running root, and return the SAME id with the new root. */
  function ReduceStep(elements: seq<ActionReduceElement>, state: ReduceState, action: TransferAction): (r: Result<ReduceState>)
    ensures r.Success? ==> r.value.id == state.id
    ensures Lookup(elements, state.id).Failure? ==> r == Failure(ElementNotFound)
    ensures r.Success? <==>
      && Lookup(elements, state.id).Success?
      && UpdateBalanceTree(state.newRoot, action, Lookup(elements, state.id).value).Success?
    ensures Lookup(elements, state.id).Success? && r.Failure? ==>
      UpdateBalanceTree(state.newRoot, action, Lookup(elements, state.id).value) == Failure(r.error)
    ensures r.Success? ==>
      && Lookup(elements, state.id).Success?
      && UpdateBalanceTree(state.newRoot, action, Lookup(elements, state.id).value) == Success(r.value.newRoot)
  {
    match Lookup(elements, state.id)
    case Failure(e) => Failure(e)
    case Success(element) =>
      match UpdateBalanceTree(state.newRoot, action, element)
      case Failure(e) => Failure(e)
      case Success(newRoot) => Success(ReduceState(state.id, newRoot))
  }

  /** The in-order fold of the reducer callback over `actions`; the first
      failing step fails the whole fold. */
  function ReduceFold(elements: seq<ActionReduceElement>, actions: seq<TransferAction>, state: ReduceState): (r: Result<ReduceState>)
    ensures r.Success? ==> r.value.id == state.id
    ensures actions == [] ==> r == Success(state)
    decreases |actions|
  {
    if actions == [] then Success(state)
    else
      match ReduceStep(elements, state, actions[0])
      case Failure(e) => Failure(e)
      case Success(next) => ReduceFold(elements, actions[1..], next)
  }

  /** What `reduce` computes: at most `MaxActions` pending actions, folded from
      the stored root with the identifier `Field(0)`. */
  function ReduceBatch(pending: seq<TransferAction>, elements: seq<ActionReduceElement>, balances: Root): (r: Result<ReduceState>)
    ensures |pending| > MaxActions ==> r == Failure(TooManyActions)
    ensures r.Success? ==> r.value.id == 0
    ensures pending == [] ==> r == Success(ReduceState(0, balances))
  {
    if |pending| > MaxActions then Failure(TooManyActions)
    else ReduceFold(elements, pending, ReduceState(0, balances))
  }

  /** Settling `actions` in order against one fixed evidence record. */
  function SettleWith(element: ActionReduceElement, actions: seq<TransferAction>, root: Root): (r: Result<Root>)
    ensures actions == [] ==> r == Success(root)
    decreases |actions|
  {
    if actions == [] then Success(root)
    else
      match UpdateBalanceTree(root, actions[0], element)
      case Failure(e) => Failure(e)
      case Success(next) => SettleWith(element, actions[1..], next)
  }

  /** Because the identifier is never advanced, every action of a batch is
      paired with the same evidence: the last element whose id is the initial
      one. A non-empty fold is settling all actions against that one record. */
  lemma {:induction false} ReduceUsesOneElement(elements: seq<ActionReduceElement>, actions: seq<TransferAction>, state: ReduceState)
    requires actions != []
    ensures ReduceFold(elements, actions, state) ==
      match Lookup(elements, state.id)
      case Failure(e) => Failure(e)
      case Success(element) =>
        match SettleWith(element, actions, state.newRoot)
        case Failure(e) => Failure(e)
        case Success(root) => Success(ReduceState(state.id, root))
  {
    match ReduceStep(elements, state, actions[0])
    case Failure(e) =>
    case Success(next) =>
      if actions[1..] != [] {
        ReduceUsesOneElement(elements, actions[1..], next);
      }
  }

  /** Folding a concatenation is folding the first part, then the second from
      where the first ended. */
  lemma {:induction false} ReduceFoldAppend(elements: seq<ActionReduceElement>, a: seq<TransferAction>, b: seq<TransferAction>, state: ReduceState)
    ensures ReduceFold(elements, a + b, state) ==
      match ReduceFold(elements, a, state)
      case Failure(e) => Failure(e)
      case Success(mid) => ReduceFold(elements, b, mid)
    decreases |a|
  {
    if a == [] {
      assert a + b == b;
    } else {
      assert (a + b)[0] == a[0];
      assert (a + b)[1..] == a[1..] + b;
      match ReduceStep(elements, state, a[0])
      case Failure(e) =>
      case Success(next) => ReduceFoldAppend(elements, a[1..], b, next);
    }
  }

  /** A step that fails anywhere in the batch fails the whole fold. */
  lemma ReduceFailsIfAnyStepFails(elements: seq<ActionReduceElement>, actions: seq<TransferAction>, state: ReduceState, i: nat, mid: ReduceState)
    requires i < |actions|
    requires ReduceFold(elements, actions[..i], state) == Success(mid)
    requires ReduceStep(elements, mid, actions[i]).Failure?
    ensures ReduceFold(elements, actions, state).Failure?
  {
    assert actions == actions[..i] + actions[i..];
    ReduceFoldAppend(elements, actions[..i], actions[i..], state);
    assert actions[i..][0] == actions[i];
  }

  /** With sender and receiver leaves distinct, the shared evidence record can
      settle at most one transfer of a non-zero amount: the debit moves the
      running root away from the record's sender witness, so the next action
      is rejected. */
  lemma OneRealTransferPerBatch(elements: seq<ActionReduceElement>, actions: seq<TransferAction>, root: Root, element: ActionReduceElement)
    requires Lookup(elements, 0) == Success(element)
    requires element.balanceAWitness.key != element.balanceBWitness.key
    requires |actions| >= 2 && actions[0].amount != 0
    ensures ReduceFold(elements, actions, ReduceState(0, root)).Failure?
  {
    var ka := element.balanceAWitness.key;
    ReduceUsesOneElement(elements, actions, ReduceState(0, root));
    match UpdateBalanceTree(root, actions[0], element)
    case Failure(_) =>
    case Success(root1) =>
      assert Get(root, ka) == element.balanceABefore;
      assert Get(root1, ka) != element.balanceABefore;
      assert UpdateBalanceTree(root1, actions[1], element).Failure?;
      assert actions[1..][0] == actions[1];
  }

  /** On an empty ledger no batch whose first action moves a non-zero amount
      settles, deferred mints included: a mint is settled as a debit of the
      record's sender leaf, which holds 0. */
  lemma EmptyLedgerBatchFails(elements: seq<ActionReduceElement>, actions: seq<TransferAction>)
    requires actions != [] && actions[0].amount != 0
    ensures ReduceBatch(actions, elements, EmptyRoot).Failure?
  {
    if |actions| <= MaxActions {
      match Lookup(elements, 0)
      case Failure(_) =>
      case Success(element) =>
        assert Get(EmptyRoot, element.balanceAWitness.key) == 0;
        assert UpdateBalanceTree(EmptyRoot, actions[0], element).Failure?;
    }
  }

  /** The contract object. `pendingActions` is the reducer's action list. */
  class AToken {
    var totalSupply: Field
    var balances: Root
    var pendingActions: seq<TransferAction>

    /** `init`: supply 0, the empty map's root, nothing pending. */
    constructor Init()
      ensures totalSupply == 0 && balances == EmptyRoot && pendingActions == []
    {
      totalSupply := 0;
      balances := EmptyRoot;
      pendingActions := [];
    }

    /** `mint`: queue a transfer from the empty public key; nothing else changes. */
    method Mint(address: PublicKey, amount: Field)
      modifies this`pendingActions
      ensures pendingActions == old(pendingActions) + [TransferAction(EmptyPublicKey, address, amount)]
      ensures balances == old(balances) && totalSupply == old(totalSupply)
    {
      pendingActions := pendingActions + [TransferAction(EmptyPublicKey, address, amount)];
    }

    /** `transferTo`, with `sender` the signed sender: queue a transfer from
        it; no balance or ownership is checked here. */
    method TransferTo(sender: PublicKey, to: PublicKey, amount: Field)
      modifies this`pendingActions
      ensures pendingActions == old(pendingActions) + [TransferAction(sender, to, amount)]
      ensures balances == old(balances) && totalSupply == old(totalSupply)
    {
      pendingActions := pendingActions + [TransferAction(sender, to, amount)];
    }

    /** `reduce`: fold the pending actions over the stored root. The folded
        state is computed and returned here, but the contract never stores it:
        this method modifies nothing, so `balances`, `totalSupply` and the
        pending list are the same after a successful call. */
    method Reduce(elements: seq<ActionReduceElement>) returns (r: Result<ReduceState>)
      requires |elements| == MaxActions
      ensures r == ReduceBatch(pendingActions, elements, balances)
    {
      if |pendingActions| > MaxActions {
        return Failure(TooManyActions);
      }
      var state := ReduceState(0, balances);
      var i := 0;
      while i < |pendingActions|
        invariant 0 <= i <= |pendingActions|
        invariant ReduceBatch(pendingActions, elements, balances) == ReduceFold(elements, pendingActions[i..], state)
      {
        assert pendingActions[i..][0] == pendingActions[i];
        assert pendingActions[i..][1..] == pendingActions[i + 1..];
        var element := FindElement(elements, state.id);
        if element.Failure? {
          return Failure(element.error);
        }
        var newRoot := UpdateBalanceTree(state.newRoot, pendingActions[i], element.value);
        if newRoot.Failure? {
          return Failure(newRoot.error);
        }
        state := ReduceState(state.id, newRoot.value);
        i := i + 1;
      }
      r := Success(state);
    }
  }
}
