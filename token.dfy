/** The synchronous ledger (`Token`): every mint and transfer proves its leaf
    updates against the stored balances root and writes the new root at once. */
module TokenLedger {
  import opened Fields
  import opened Outcomes
  import opened MerkleMaps

  /** The two on-chain state fields of the contract. */
  datatype TokenState = TokenState(totalSupply: Field, balances: Root)

  /** The state `init` writes. */
  const InitialState := TokenState(0, EmptyRoot)

  /** `mint`: the witness must recompute the stored root from `balanceBefore`;
      then the leaf becomes `balanceBefore + mintAmount` and the supply grows by
      `mintAmount` (both modulo P). Anyone may mint to any leaf. */
  function ApplyMint(s: TokenState, balanceBefore: Field, balanceWitness: Witness, mintAmount: Field): (r: Result<TokenState>)
    ensures r.Success? <==> Authenticates(balanceWitness, s.balances) && Get(s.balances, balanceWitness.key) == balanceBefore
    ensures r.Failure? ==> r.error == WrongWitnessForBalances
    ensures r.Success? ==> Get(r.value.balances, balanceWitness.key) == Add(balanceBefore, mintAmount)
    ensures r.Success? ==> forall k :: k != balanceWitness.key ==> Get(r.value.balances, k) == Get(s.balances, k)
    ensures r.Success? ==> r.value.totalSupply == Add(s.totalSupply, mintAmount)
  {
    var prevRoot := ComputeRoot(balanceWitness, balanceBefore);
    ComputeRootMatches(balanceWitness, balanceBefore, s.balances);
    if s.balances != prevRoot then Failure(WrongWitnessForBalances)
    else
      var newValue := Add(balanceBefore, mintAmount);
      RewriteLeaf(balanceWitness, balanceBefore, s.balances, newValue);
      Success(TokenState(Add(s.totalSupply, mintAmount), ComputeRoot(balanceWitness, newValue)))
  }

  /** The root the debit leg yields when sender leaf `ka` holds `aBefore`. */
  function Debited(root: Root, ka: Key, aBefore: Field, amount: Field): Root
    requires amount <= aBefore
  {
    Set(root, ka, aBefore - amount)
  }

  /** The chained two-leaf update shared by `Token.transferTo` and
      `AToken.updateBalanceTree`: verify the sender witness against `root`,
      check the amount, debit, require the receiver witness to recompute the
      POST-DEBIT root, then credit. The credit writes
      `bBefore + (bBefore + amount)`, as the code does. */
  function ChainedTransfer(root: Root, amount: Field, aBefore: Field, aW: Witness, bBefore: Field, bW: Witness): (r: Result<Root>)
    ensures r.Success? <==>
      && Authenticates(aW, root) && Get(root, aW.key) == aBefore
      && amount <= aBefore
      && Authenticates(bW, Debited(root, aW.key, aBefore, amount))
      && Get(Debited(root, aW.key, aBefore, amount), bW.key) == bBefore
    ensures !(Authenticates(aW, root) && Get(root, aW.key) == aBefore) ==> r == Failure(WrongWitnessForBalancesA)
    ensures Authenticates(aW, root) && Get(root, aW.key) == aBefore && amount > aBefore ==> r == Failure(CannotTransferMoreThanYouHave)
    ensures Authenticates(aW, root) && Get(root, aW.key) == aBefore && amount <= aBefore && r.Failure? ==>
              r.error == WrongWitnessForBalanceB
    ensures r.Success? ==> Get(r.value, bW.key) == Add(bBefore, Add(bBefore, amount))
    ensures r.Success? && aW.key != bW.key ==> Get(r.value, aW.key) == aBefore - amount
    ensures r.Success? ==> forall k :: k != aW.key && k != bW.key ==> Get(r.value, k) == Get(root, k)
  {
    var prevRoot := ComputeRoot(aW, aBefore);
    ComputeRootMatches(aW, aBefore, root);
    if root != prevRoot then Failure(WrongWitnessForBalancesA)
    else if !(amount <= aBefore) then Failure(CannotTransferMoreThanYouHave)
    else
      var newValueA := Sub(aBefore, amount);
      RewriteLeaf(aW, aBefore, root, newValueA);
      var newRootA := ComputeRoot(aW, newValueA);
      var prevRootB := ComputeRoot(bW, bBefore);
      ComputeRootMatches(bW, bBefore, newRootA);
      if prevRootB != newRootA then Failure(WrongWitnessForBalanceB)
      else
        var newValueB := Add(bBefore, amount);
        RewriteLeaf(bW, bBefore, newRootA, Add(bBefore, newValueB));
        Success(ComputeRoot(bW, Add(bBefore, newValueB)))
  }

  /** `transferTo`: the sender witness must recompute the stored root, and the
      signed sender must own that witness's leaf; the rest is the chained
      update. The total supply is untouched. */
  function ApplyTransfer(s: TokenState, sender: PublicKey, transferAmount: Field,
                         balanceABefore: Field, balanceAWitness: Witness,
                         balanceBBefore: Field, balanceBWitness: Witness): (r: Result<TokenState>)
    ensures ComputeRoot(balanceAWitness, balanceABefore) != s.balances ==> r == Failure(WrongWitnessForBalancesA)
    ensures ComputeRoot(balanceAWitness, balanceABefore) == s.balances && KeyOf(sender) != balanceAWitness.key ==>
              r == Failure(OnlyOwnerCanTransfer)
    ensures r.Success? ==> KeyOf(sender) == balanceAWitness.key && Get(s.balances, KeyOf(sender)) == balanceABefore
    ensures r.Success? ==> r.value.totalSupply == s.totalSupply
    ensures KeyOf(sender) == balanceAWitness.key ==>
              match ChainedTransfer(s.balances, transferAmount, balanceABefore, balanceAWitness, balanceBBefore, balanceBWitness)
              case Success(root) => r == Success(TokenState(s.totalSupply, root))
              case Failure(e) => r == Failure(e)
  {
    var prevRoot := ComputeRoot(balanceAWitness, balanceABefore);
    ComputeRootMatches(balanceAWitness, balanceABefore, s.balances);
    if s.balances != prevRoot then Failure(WrongWitnessForBalancesA)
    else if KeyOf(sender) != balanceAWitness.key then Failure(OnlyOwnerCanTransfer)
    else
      match ChainedTransfer(s.balances, transferAmount, balanceABefore, balanceAWitness, balanceBBefore, balanceBWitness)
      case Success(root) => Success(TokenState(s.totalSupply, root))
      case Failure(e) => Failure(e)
  }

  /** A transfer of more than the sender's proven balance fails on the amount
      check and changes nothing. */
  lemma OverdraftRejected(s: TokenState, sender: PublicKey, transferAmount: Field,
                          balanceABefore: Field, balanceAWitness: Witness,
                          balanceBBefore: Field, balanceBWitness: Witness)
    requires transferAmount > balanceABefore
    requires ComputeRoot(balanceAWitness, balanceABefore) == s.balances
    requires KeyOf(sender) == balanceAWitness.key
    ensures ApplyTransfer(s, sender, transferAmount, balanceABefore, balanceAWitness, balanceBBefore, balanceBWitness)
            == Failure(CannotTransferMoreThanYouHave)
  {
    ComputeRootMatches(balanceAWitness, balanceABefore, s.balances);
  }

  /** A receiver witness taken against the ORIGINAL root is rejected whenever
      the debit really changed the sender's leaf, whether or not the two
      leaves coincide. */
  lemma StaleReceiverWitnessRejected(root: Root, amount: Field, aBefore: Field, aW: Witness, bBefore: Field, bW: Witness)
    requires ComputeRoot(aW, aBefore) == root
    requires ComputeRoot(bW, bBefore) == root
    requires 0 < amount <= aBefore
    ensures ChainedTransfer(root, amount, aBefore, aW, bBefore, bW) == Failure(WrongWitnessForBalanceB)
  {
    ComputeRootMatches(aW, aBefore, root);
    ComputeRootMatches(bW, bBefore, root);
    var debited := Debited(root, aW.key, aBefore, amount);
    if aW.key != bW.key {
      assert Get(bW.siblings, aW.key) == aBefore != Get(debited, aW.key);
      assert !Authenticates(bW, debited);
    } else {
      assert Get(debited, bW.key) != bBefore;
    }
  }

  /** The test's scenario: on a fresh ledger, mint 1000 to Alice, then Alice
      sends 100 to Bob with witnesses taken from a reference map that mirrors
      each write. Both calls succeed, Alice holds 900, Bob 100, the supply is
      1000 and the stored root equals the reference map's root. */
  lemma SimpleTransferScenario(alice: PublicKey, bob: PublicKey)
    requires alice != bob
    ensures
      var ka, kb := KeyOf(alice), KeyOf(bob);
      var afterMint := Set(EmptyRoot, ka, 1000);
      var aliceDebited := Set(afterMint, ka, 900);
      var reference := Set(aliceDebited, kb, 100);
      var minted := ApplyMint(InitialState, Get(EmptyRoot, ka), Witness(ka, EmptyRoot), 1000);
      && minted == Success(TokenState(1000, afterMint))
      && var sent := ApplyTransfer(minted.value, alice, 100, Get(afterMint, ka), Witness(ka, afterMint),
                                   Get(aliceDebited, kb), Witness(kb, aliceDebited));
         && sent == Success(TokenState(1000, reference))
         && Get(reference, ka) == 900 && Get(reference, kb) == 100
  {
    var ka, kb := KeyOf(alice), KeyOf(bob);
    if ka == kb { KeyOfInjective(alice, bob); }
    var afterMint := Set(EmptyRoot, ka, 1000);
    var aliceDebited := Set(afterMint, ka, 900);
    var reference := Set(aliceDebited, kb, 100);
    ComputeRootMatches(Witness(ka, EmptyRoot), 0, EmptyRoot);
    var minted := ApplyMint(InitialState, 0, Witness(ka, EmptyRoot), 1000);
    RootsEqual(minted.value.balances, afterMint);
    ComputeRootMatches(Witness(ka, afterMint), 1000, afterMint);
    ComputeRootMatches(Witness(kb, aliceDebited), 0, aliceDebited);
    var sent := ApplyTransfer(minted.value, alice, 100, 1000, Witness(ka, afterMint), 0, Witness(kb, aliceDebited));
    assert sent.Success?;
    RootsEqual(sent.value.balances, reference);
  }

  /** The credit leg as written pays the receiver its own previous balance on
      top of the amount: Bob holding 100 receives 50 from Alice holding 100 and
      ends with 250, so the two balances sum to 300 instead of 200. */
  lemma AsWrittenCreditDoublesReceiver()
    ensures
      var ka, kb := Digest([1]), Digest([2]);
      var root := Set(Set(EmptyRoot, ka, 100), kb, 100);
      var sent := ChainedTransfer(root, 50, 100, Witness(ka, root), 100, Witness(kb, Set(root, ka, 50)));
      && sent.Success?
      && Get(sent.value, ka) == 50 && Get(sent.value, kb) == 250
      && Get(sent.value, ka) + Get(sent.value, kb) != Get(root, ka) + Get(root, kb)
  {
    var ka, kb := Digest([1]), Digest([2]);
    assert ka != kb by { assert ka.preimage[0] != kb.preimage[0]; }
    var root := Set(Set(EmptyRoot, ka, 100), kb, 100);
    ComputeRootMatches(Witness(ka, root), 100, root);
    ComputeRootMatches(Witness(kb, Set(root, ka, 50)), 100, Set(root, ka, 50));
  }

  /** The evidently intended chained update: the same checks, but the receiver
      leaf becomes `bBefore + amount`. */
  function CorrectedChainedTransfer(root: Root, amount: Field, aBefore: Field, aW: Witness, bBefore: Field, bW: Witness): (r: Result<Root>)
    ensures r.Success? <==> ChainedTransfer(root, amount, aBefore, aW, bBefore, bW).Success?
    ensures r.Failure? ==> r == ChainedTransfer(root, amount, aBefore, aW, bBefore, bW)
    ensures r.Success? ==> Get(r.value, bW.key) == Add(bBefore, amount)
    ensures r.Success? && aW.key != bW.key ==> Get(r.value, aW.key) == aBefore - amount
    ensures r.Success? ==> forall k :: k != aW.key && k != bW.key ==> Get(r.value, k) == Get(root, k)
  {
    match ChainedTransfer(root, amount, aBefore, aW, bBefore, bW)
    case Failure(e) => Failure(e)
    case Success(_) =>
      var newRootA := ComputeRoot(aW, Sub(aBefore, amount));
      RewriteLeaf(aW, aBefore, root, Sub(aBefore, amount));
      RewriteLeaf(bW, bBefore, newRootA, Add(bBefore, amount));
      Success(ComputeRoot(bW, Add(bBefore, amount)))
  }

  /** With the corrected credit, a transfer between two distinct leaves moves
      value without creating any: the sum of the two leaves is kept (modulo P),
      and the sender's leaf never wraps. */
  lemma CorrectedTransferConserves(root: Root, amount: Field, aBefore: Field, aW: Witness, bBefore: Field, bW: Witness)
    requires aW.key != bW.key
    requires CorrectedChainedTransfer(root, amount, aBefore, aW, bBefore, bW).Success?
    ensures var after := CorrectedChainedTransfer(root, amount, aBefore, aW, bBefore, bW).value;
      && Get(after, aW.key) <= Get(root, aW.key)
      && Add(Get(after, aW.key), Get(after, bW.key)) == Add(Get(root, aW.key), Get(root, bW.key))
  {
    var after := CorrectedChainedTransfer(root, amount, aBefore, aW, bBefore, bW).value;
    var debited := Debited(root, aW.key, aBefore, amount);
    assert Get(root, aW.key) == aBefore;
    assert Get(root, bW.key) == Get(debited, bW.key) == bBefore;
    assert Get(after, aW.key) == aBefore - amount;
    assert Get(after, bW.key) == Add(bBefore, amount);
  }

  /** The contract object: `totalSupply` and `balances` are updated in place. */
  class Token {
    var totalSupply: Field
    var balances: Root

    function State(): TokenState
      reads this
    {
      TokenState(totalSupply, balances)
    }

    /** `init`: supply 0 and the empty map's root. */
    constructor Init()
      ensures State() == InitialState
      ensures totalSupply == 0 && forall k :: Get(balances, k) == 0
    {
      totalSupply := 0;
      balances := EmptyRoot;
    }

    /** `mint`: on success the state becomes `ApplyMint`'s; on failure nothing changes. */
    method Mint(balanceBefore: Field, balanceWitness: Witness, mintAmount: Field) returns (r: Outcome)
      modifies this
      ensures match ApplyMint(old(State()), balanceBefore, balanceWitness, mintAmount)
              case Success(s) => r == Pass && State() == s
              case Failure(e) => r == Fail(e) && State() == old(State())
    {
      var prevRoot := ComputeRoot(balanceWitness, balanceBefore);
      if balances != prevRoot {
        return Fail(WrongWitnessForBalances);
      }
      var newValue := Add(balanceBefore, mintAmount);
      balances := ComputeRoot(balanceWitness, newValue);
      totalSupply := Add(totalSupply, mintAmount);
      r := Pass;
    }

    /** `transferTo`, with `sender` the signed sender: on success the balances
        become `ApplyTransfer`'s and the supply is unchanged; on failure nothing
        changes. */
    method TransferTo(sender: PublicKey, transferAmount: Field,
                      balanceABefore: Field, balanceAWitness: Witness,
                      balanceBBefore: Field, balanceBWitness: Witness) returns (r: Outcome)
      modifies this`balances
      ensures totalSupply == old(totalSupply)
      ensures match ApplyTransfer(old(State()), sender, transferAmount, balanceABefore, balanceAWitness, balanceBBefore, balanceBWitness)
              case Success(s) => r == Pass && State() == s
              case Failure(e) => r == Fail(e) && State() == old(State())
    {
      var prevRoot := ComputeRoot(balanceAWitness, balanceABefore);
      if balances != prevRoot {
        return Fail(WrongWitnessForBalancesA);
      }
      if KeyOf(sender) != balanceAWitness.key {
        return Fail(OnlyOwnerCanTransfer);
      }
      if !(transferAmount <= balanceABefore) {
        return Fail(CannotTransferMoreThanYouHave);
      }
      var newValueA := Sub(balanceABefore, transferAmount);
      var newRootA := ComputeRoot(balanceAWitness, newValueA);
      var prevRootB := ComputeRoot(balanceBWitness, balanceBBefore);
      if prevRootB != newRootA {
        return Fail(WrongWitnessForBalanceB);
      }
      var newValueB := Add(balanceBBefore, transferAmount);
      balances := ComputeRoot(balanceBWitness, Add(balanceBBefore, newValueB));
      r := Pass;
    }
  }
}
