/** Migration 0081: at most one bank transaction claims a payment. */
module BankClaims {
  import opened Options
  import opened EarliestPerGroup

  datatype Tx = Tx(
    statement: Id,
    created: int,
    payment: Option<Id>,
    matchMethod: Option<string>,
    confidence: Option<int>,
    matchedAt: Option<int>)

  datatype Statement = Statement(matchedCount: int, reference: nat)

  type Txs = map<Id, Tx>
  type Statements = map<Id, Statement>

  predicate Unreconciled(m: string) {
    m == "amount_mismatch" || m == "currency_mismatch" || m == "status_conflict"
  }

  /** `is_reconciled` */
  predicate Reconciled(t: Tx) {
    t.payment.Some? && (t.matchMethod.Some? ==> !Unreconciled(t.matchMethod.value))
  }

  /** The rows of the rank query: claims, grouped by payment. */
  function Claims(txs: Txs): Rows<Id> {
    map id | id in txs && txs[id].payment.Some? :: Keyed(txs[id].payment.value, txs[id].created)
  }

  function Cleared(t: Tx): Tx {
    t.(payment := None, matchMethod := None, confidence := None, matchedAt := None)
  }

  function Clear(txs: Txs, over: set<Id>): Txs {
    map id | id in txs :: if id in over then Cleared(txs[id]) else txs[id]
  }

  function ReconciledOf(txs: Txs, sid: Id): set<Id> {
    set id | id in txs && txs[id].statement == sid && Reconciled(txs[id])
  }

  /** The statements that lost a claim. */
  function Affected(txs: Txs, over: set<Id>): set<Id> {
    set id | id in over && id in txs :: txs[id].statement
  }

  function Recount(statements: Statements, txs: Txs, affected: set<Id>): Statements {
    map sid | sid in statements ::
      if sid in affected then statements[sid].(matchedCount := |ReconciledOf(txs, sid)|) else statements[sid]
  }

  function RepairedTxs(txs: Txs): Txs {
    Clear(txs, Extras(Claims(txs)))
  }

  function RepairedStatements(statements: Statements, txs: Txs): Statements {
    Recount(statements, RepairedTxs(txs), Affected(txs, Extras(Claims(txs))))
  }

  /** What `uq_bank_transactions_matched_payment` demands. */
  ghost predicate OneClaimPerPayment(txs: Txs) {
    forall i, j :: i in txs && j in txs && i != j && txs[i].payment.Some? ==> txs[i].payment != txs[j].payment
  }

  /** The statement's count is that of its claims which no mismatch or conflict marks. */
  ghost predicate CountCorrect(statements: Statements, txs: Txs, sid: Id) {
    sid in statements ==>
      statements[sid].matchedCount ==
      |set id | id in txs && txs[id].statement == sid && txs[id].payment.Some?
             && txs[id].matchMethod != Some("amount_mismatch")
             && txs[id].matchMethod != Some("currency_mismatch")
             && txs[id].matchMethod != Some("status_conflict")|
  }

  /** No other claim on the payment is older; among equally old ones the least id goes first. */
  ghost predicate First(txs: Txs, id: Id)
    requires id in txs
  {
    forall k :: k in txs && k != id && txs[k].payment == txs[id].payment ==>
      txs[id].created < txs[k].created || (txs[id].created == txs[k].created && id < k)
  }

  class TenantDb {
    var txs: Txs
    var statements: Statements
    var indexed: bool

    /** CREATE UNIQUE INDEX IF NOT EXISTS: fails on a duplicate. */
    method CreateIndex() returns (ok: bool)
      modifies this`indexed
      ensures ok <==> old(indexed) || OneClaimPerPayment(txs)
      ensures indexed == (old(indexed) || ok)
    {
      ok := indexed || forall i, j | i in txs && j in txs && i != j && txs[i].payment.Some?
            :: txs[i].payment != txs[j].payment;
      indexed := ok;
    }

    method Upgrade() returns (ok: bool)
      modifies this
      ensures txs == RepairedTxs(old(txs))
      ensures statements == RepairedStatements(old(statements), old(txs))
      ensures ok && indexed
    {
      var claims := Claims(txs);
      var overClaimed := map id | id in claims && RowNumber(claims, id) > 1 :: txs[id].statement;
      assert overClaimed.Keys == Extras(claims);
      txs := map id | id in txs ::
        if id in overClaimed
        then txs[id].(payment := None, matchMethod := None, confidence := None, matchedAt := None)
        else txs[id];
      var affected := set id | id in overClaimed :: overClaimed[id];
      assert affected == Affected(old(txs), overClaimed.Keys);
      statements := map sid | sid in statements ::
        if sid in affected
        then statements[sid].(matchedCount := |ReconciledOf(txs, sid)|)
        else statements[sid];
      PaymentsHaveOneClaim(old(txs));
      ok := CreateIndex();
    }
  }

  lemma ExtrasAreNotFirst(txs: Txs, id: Id)
    requires id in txs && txs[id].payment.Some?
    ensures id in Extras(Claims(txs)) <==> !First(txs, id)
  {
    var claims := Claims(txs);
    ExtrasAreNotEarliest(claims, id);
    if IsEarliest(claims, id) {
      forall k | k in txs && k != id && txs[k].payment == txs[id].payment
        ensures txs[id].created < txs[k].created || (txs[id].created == txs[k].created && id < k)
      {
        assert k in claims && Earlier(claims, id, k);
      }
    }
    if First(txs, id) {
      forall k | k in claims && k != id && claims[k].group == claims[id].group ensures Earlier(claims, id, k) {
        assert txs[k].payment == txs[id].payment;
      }
    }
  }

  /** A claim is kept, untouched, exactly when it is the first on its payment; a claim that is given
      up loses the payment and all that described the match, and nothing else. */
  lemma EarliestClaimIsKept(txs: Txs, id: Id)
    requires id in txs
    ensures RepairedTxs(txs).Keys == txs.Keys
    ensures RepairedTxs(txs)[id] ==
            if txs[id].payment.None? || First(txs, id) then txs[id]
            else Tx(txs[id].statement, txs[id].created, None, None, None, None)
    ensures txs[id].payment.Some? ==>
              exists k :: k in txs && txs[k].payment == txs[id].payment && First(txs, k)
  {
    if txs[id].payment.Some? {
      ExtrasAreNotFirst(txs, id);
      var k := EarliestExists(Claims(txs), id);
      ExtrasAreNotEarliest(Claims(txs), k);
      ExtrasAreNotFirst(txs, k);
    }
  }

  lemma PaymentsHaveOneClaim(txs: Txs)
    ensures OneClaimPerPayment(RepairedTxs(txs))
  {
    var txs', claims := RepairedTxs(txs), Claims(txs);
    forall i, j | i in txs' && j in txs' && i != j && txs'[i].payment.Some?
      ensures txs'[i].payment != txs'[j].payment
    {
      if txs'[j].payment.Some? {
        ExtrasAreNotEarliest(claims, i);
        ExtrasAreNotEarliest(claims, j);
      }
    }
  }

  lemma ReconciledIsUnmarked(txs: Txs, sid: Id)
    ensures ReconciledOf(txs, sid) ==
            set id | id in txs && txs[id].statement == sid && txs[id].payment.Some?
                  && txs[id].matchMethod != Some("amount_mismatch")
                  && txs[id].matchMethod != Some("currency_mismatch")
                  && txs[id].matchMethod != Some("status_conflict")
  {
  }

  /** Recounting only the affected statements is enough: a statement's count is right
      afterwards exactly when one of its claims was given up or it was right before. Nothing else
      about a statement changes. */
  lemma CountsStayCorrect(statements: Statements, txs: Txs, sid: Id)
    requires sid in statements
    ensures CountCorrect(RepairedStatements(statements, txs), RepairedTxs(txs), sid) <==>
            || (exists id :: id in txs && txs[id].statement == sid && RepairedTxs(txs)[id] != txs[id])
            || CountCorrect(statements, txs, sid)
    ensures RepairedStatements(statements, txs).Keys == statements.Keys
    ensures RepairedStatements(statements, txs)[sid].reference == statements[sid].reference
  {
    var over := Extras(Claims(txs));
    ReconciledIsUnmarked(txs, sid);
    ReconciledIsUnmarked(RepairedTxs(txs), sid);
    forall id | id in txs ensures RepairedTxs(txs)[id] != txs[id] <==> id in over {
      assert id in over ==> txs[id].payment.Some?;
    }
    if sid !in Affected(txs, over) {
      forall id | id in txs && txs[id].statement == sid ensures RepairedTxs(txs)[id] == txs[id] {
        assert id !in over;
      }
      assert ReconciledOf(RepairedTxs(txs), sid) == ReconciledOf(txs, sid);
    } else {
      var id :| id in over && id in txs && txs[id].statement == sid;
      assert RepairedTxs(txs)[id] != txs[id];
    }
  }

  /** Running the repair again changes nothing. */
  lemma RepairIsIdempotent(statements: Statements, txs: Txs)
    ensures RepairedTxs(RepairedTxs(txs)) == RepairedTxs(txs)
    ensures RepairedStatements(RepairedStatements(statements, txs), RepairedTxs(txs))
         == RepairedStatements(statements, txs)
  {
    assert Claims(RepairedTxs(txs)) == Claims(txs) - Extras(Claims(txs));
    NoExtrasRemain(Claims(txs));
  }

  /** Only claims that lost to an older one, which is kept, change. */
  lemma OtherTransactionsAreUntouched(txs: Txs, id: Id)
    requires id in txs
    ensures RepairedTxs(txs)[id] != txs[id] ==>
              txs[id].payment.Some? &&
              exists k :: k in txs && txs[k].payment == txs[id].payment && RepairedTxs(txs)[k] == txs[k]
                && (txs[k].created < txs[id].created || (txs[k].created == txs[id].created && k < id))
  {
    if RepairedTxs(txs)[id] != txs[id] {
      EarliestClaimIsKept(txs, id);
      var k :| k in txs && txs[k].payment == txs[id].payment && First(txs, k);
      EarliestClaimIsKept(txs, k);
      assert id != k;
    }
  }
}
