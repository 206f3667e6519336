/**
  The stock ledger engine of `MouvementStockService`: recording one
  movement (receipt ENTREE, issue SORTIE, stock-take AJUSTEMENT) updates
  the product's stock and weighted average cost (CUMP) and appends one
  ledger entry stamped with the resulting stock. Everything happens in
  one transaction: a refused movement changes nothing.
 */
module StockMovements {
  import opened Results
  import opened Money
  import opened Entities

  /**
    `MouvementStockDTO` as the engine reads it. The product id is passed
    to the repository lookup and the quantity and the kind are unboxed,
    all without a null check, so they are required here; the price and
    the order reference are optional. The date is not modelled,
    and the request carries no id of its own, so recording it always adds
    a new entry.
   */
  datatype MouvementRequest = MouvementRequest(
    produitId: ProduitId,
    commandeId: Option<CommandeId>,
    typeMouvement: TypeMouvement,
    quantite: int,
    prixUnitaire: Option<Cents>)

  /** Value of the stock on hand at the current CUMP; a null CUMP counts as zero. */
  function ValeurStock(p: Produit): int {
    p.coutMoyenPondere.GetOr(0) * p.stockActuel
  }

  // ---------------------------------------------------------------------
  // Reference rules: what each kind of movement does to the stock
  // ---------------------------------------------------------------------

  /**
    The stock after one movement of kind `t` and quantity `q` applied to
    `stock`: a receipt adds (and clamps a non-positive result to zero), an
    issue subtracts, an adjustment sets.
   */
  function NouveauStock(stock: int, t: TypeMouvement, q: int): int {
    match t
    case Entree => if stock + q <= 0 then 0 else stock + q
    case Sortie => stock - q
    case Ajustement => q
  }

  /** Whether the business rules admit the movement: no issue below zero, no negative stock-take. */
  predicate Admissible(stock: int, t: TypeMouvement, q: int) {
    match t
    case Entree => true
    case Sortie => stock - q >= 0
    case Ajustement => q >= 0
  }

  // ---------------------------------------------------------------------
  // recalculerCump
  // ---------------------------------------------------------------------

  /**
    `recalculerCump`: a receipt of `quantiteEntree` units at `prix`. The
    new CUMP is the value of the old stock plus the value received,
    divided by the new stock and rounded HALF_UP to the cent; when the
    new stock is not positive, stock and CUMP both become zero. Nothing
    but stock and CUMP changes.
   */
  function RecalculerCump(p: Produit, quantiteEntree: int, prix: Cents): (r: Produit)
    ensures r == p.(stockActuel := r.stockActuel, coutMoyenPondere := r.coutMoyenPondere)
    ensures p.stockActuel + quantiteEntree <= 0 ==> r.stockActuel == 0 && r.coutMoyenPondere == Some(0)
    ensures p.stockActuel + quantiteEntree > 0 ==>
              && r.stockActuel == p.stockActuel + quantiteEntree
              && r.coutMoyenPondere.Some?
              && IsHalfUpQuotient(ValeurStock(p) + prix * quantiteEntree, r.stockActuel, r.coutMoyenPondere.value)
  {
    var nouveauStock := p.stockActuel + quantiteEntree;
    if nouveauStock <= 0 then
      p.(stockActuel := 0, coutMoyenPondere := Some(0))
    else
      p.(stockActuel := nouveauStock,
         coutMoyenPondere := Some(DivHalfUp(ValeurStock(p) + prix * quantiteEntree, nouveauStock)))
  }

  /**
    The first receipt into an empty stock sets the CUMP to the receipt
    price exactly, whatever the previous (possibly null) CUMP was.
   */
  lemma PremiereEntreeFixeLeCump(p: Produit, q: int, prix: Cents)
    requires p.stockActuel == 0 && q > 0
    ensures RecalculerCump(p, q, prix).coutMoyenPondere == Some(prix)
    ensures RecalculerCump(p, q, prix).stockActuel == q
  {
    assert ValeurStock(p) + prix * q == prix * q;
    DivHalfUpExact(prix, q);
  }

  /**
    From a non-negative stock, a receipt of a positive quantity yields a
    CUMP between the old CUMP and the receipt price: the weighted average
    never leaves the range of the costs it averages.
   */
  lemma CumpEntreAncienEtPrix(p: Produit, q: int, prix: Cents)
    requires p.stockActuel >= 0 && q > 0
    ensures var c := p.coutMoyenPondere.GetOr(0);
            var r := RecalculerCump(p, q, prix).coutMoyenPondere.value;
            (c <= prix ==> c <= r <= prix) && (prix <= c ==> prix <= r <= c)
  {
    var c := p.coutMoyenPondere.GetOr(0);
    var s := p.stockActuel;
    var n := s + q;
    var v := c * s + prix * q;
    assert ValeurStock(p) + prix * q == v;
    if c <= prix {
      MulMonotone(c, prix, s);
      MulMonotone(c, prix, q);
      assert c * n == c * s + c * q;
      assert prix * n == prix * s + prix * q;
      DivHalfUpBetween(v, n, c, prix);
    } else {
      MulMonotone(prix, c, s);
      MulMonotone(prix, c, q);
      assert c * n == c * s + c * q;
      assert prix * n == prix * s + prix * q;
      DivHalfUpBetween(v, n, prix, c);
    }
  }

  /** 100 units at 2.00 plus a receipt of 50 at 3.00: 150 units at 2.33. */
  lemma ExempleEntreeMoyennePonderee(p: Produit)
    requires p.stockActuel == 100 && p.coutMoyenPondere == Some(200)
    ensures RecalculerCump(p, 50, 300).stockActuel == 150
    ensures RecalculerCump(p, 50, 300).coutMoyenPondere == Some(233)
  {
    assert ValeurStock(p) + 300 * 50 == 35000;
    HalfUpQuotientUnique(35000, 150, RecalculerCump(p, 50, 300).coutMoyenPondere.value, 233);
  }

  // ---------------------------------------------------------------------
  // The per-kind switch and enregistrerMouvement
  // ---------------------------------------------------------------------

  /**
    The `switch` of `enregistrerMouvement`: the product after the
    movement, or the business rule that refuses it. A receipt uses the
    request's price, or the product's list price when the request has
    none; issues and stock-takes leave the CUMP alone.
   */
  function AppliquerMouvement(p: Produit, t: TypeMouvement, q: int, prix: Option<Cents>): (r: Result<Produit>)
    ensures r.Ok? <==> Admissible(p.stockActuel, t, q)
    ensures r.Ok? ==> r.value.stockActuel == NouveauStock(p.stockActuel, t, q)
    ensures r.Ok? ==> r.value.stockActuel >= 0
    ensures r.Ok? ==> r.value == p.(stockActuel := r.value.stockActuel, coutMoyenPondere := r.value.coutMoyenPondere)
    ensures t == Entree ==> r == Ok(RecalculerCump(p, q, prix.GetOr(p.prixUnitaire)))
    ensures t != Entree && r.Ok? ==> r.value.coutMoyenPondere == p.coutMoyenPondere
    ensures t == Sortie && r.Err? ==> r.error == Business(InsufficientStock)
    ensures t == Ajustement && r.Err? ==> r.error == Business(NegativeAdjustment)
  {
    match t
    case Entree =>
      Ok(RecalculerCump(p, q, prix.GetOr(p.prixUnitaire)))
    case Sortie =>
      var stockApresSortie := p.stockActuel - q;
      if stockApresSortie < 0 then Err(Business(InsufficientStock))
      else Ok(p.(stockActuel := stockApresSortie))
    case Ajustement =>
      if q < 0 then Err(Business(NegativeAdjustment))
      else Ok(p.(stockActuel := q))
  }

  /** The lookups `enregistrerMouvement` makes before anything else succeed. */
  predicate References(db: Db, req: MouvementRequest) {
    && req.produitId in db.produits
    && (req.commandeId.Some? ==> req.commandeId.value in db.commandes)
  }

  /**
    The refusals request `req` can provoke against `db`: an unknown
    product, an unknown referenced order, an issue (for lack of stock) or
    a negative stock-take.
   */
  predicate PeutRefuser(db: Db, req: MouvementRequest, e: Error) {
    || (e == NotFound(MissingProduit) && req.produitId !in db.produits)
    || (e == NotFound(MissingCommande) && req.commandeId.Some? && req.commandeId.value !in db.commandes)
    || (e == Business(InsufficientStock) && req.typeMouvement == Sortie)
    || (e == Business(NegativeAdjustment) && req.typeMouvement == Ajustement && req.quantite < 0)
  }

  /**
    `enregistrerMouvement`. The product is looked up first, then the
    order when one is referenced; then the kind's rule is applied. On
    success the product is saved and exactly one movement is appended,
    stamped with the product's new stock; nothing else changes.
   */
  function EnregistrerMouvement(db: Db, req: MouvementRequest): (r: Result<(Db, MouvementStock)>)
    ensures req.produitId !in db.produits ==> r == Err(NotFound(MissingProduit))
    ensures (req.produitId in db.produits && req.commandeId.Some? && req.commandeId.value !in db.commandes)
              ==> r == Err(NotFound(MissingCommande))
    ensures r.Ok? <==> References(db, req)
                       && Admissible(db.produits[req.produitId].stockActuel, req.typeMouvement, req.quantite)
    ensures r.Err? ==> PeutRefuser(db, req, r.error)
    ensures References(db, req) && r.Err? ==>
              r.error == AppliquerMouvement(db.produits[req.produitId], req.typeMouvement, req.quantite, req.prixUnitaire).error
    ensures r.Ok? ==>
              var (db', m) := r.value;
              && req.produitId in db'.produits
              && db'.produits == db.produits[req.produitId := db'.produits[req.produitId]]
              && db'.produits[req.produitId]
                 == AppliquerMouvement(db.produits[req.produitId], req.typeMouvement, req.quantite, req.prixUnitaire).value
              && db'.fournisseurs == db.fournisseurs
              && db'.commandes == db.commandes
              && db'.mouvements == db.mouvements + [m]
              && m == MouvementStock(req.produitId, req.commandeId, req.typeMouvement, req.quantite,
                                     req.prixUnitaire, db'.produits[req.produitId].stockActuel)
  {
    if req.produitId !in db.produits then Err(NotFound(MissingProduit))
    else if req.commandeId.Some? && req.commandeId.value !in db.commandes then Err(NotFound(MissingCommande))
    else
      var p := db.produits[req.produitId];
      var p' :- AppliquerMouvement(p, req.typeMouvement, req.quantite, req.prixUnitaire);
      var m := MouvementStock(req.produitId, req.commandeId, req.typeMouvement, req.quantite,
                              req.prixUnitaire, p'.stockActuel);
      Ok((db.(produits := db.produits[req.produitId := p'], mouvements := db.mouvements + [m]), m))
  }

  /** 100 units on hand and an issue of 200: refused, nothing recorded. */
  lemma ExempleSortieInsuffisante(db: Db, pid: ProduitId)
    requires pid in db.produits && db.produits[pid].stockActuel == 100
    ensures EnregistrerMouvement(db, MouvementRequest(pid, None, Sortie, 200, None))
            == Err(Business(InsufficientStock))
  {
  }

  /** A stock-take to 42 sets the stock to 42 and keeps the CUMP. */
  lemma ExempleAjustement(db: Db, pid: ProduitId)
    requires pid in db.produits && db.produits[pid].stockActuel == 100
    ensures var r := EnregistrerMouvement(db, MouvementRequest(pid, None, Ajustement, 42, None));
            && r.Ok?
            && r.value.0.produits[pid].stockActuel == 42
            && r.value.0.produits[pid].coutMoyenPondere == db.produits[pid].coutMoyenPondere
            && r.value.1.stockApresMouvement == 42
  {
  }

  // ---------------------------------------------------------------------
  // A run of movements and the replayability of the ledger
  // ---------------------------------------------------------------------

  /** Whether ledger entry `m` records request `req` (all fields but the stamp). */
  predicate Enregistre(m: MouvementStock, req: MouvementRequest) {
    && m.produitId == req.produitId
    && m.commandeId == req.commandeId
    && m.typeMouvement == req.typeMouvement
    && m.quantite == req.quantite
    && m.prixUnitaire == req.prixUnitaire
  }

  /**
    Movements recorded one after the other in one transaction. The run
    succeeds exactly when each step succeeds on the state the previous
    steps left: the first refusal aborts the whole run with that step's
    error. Every accepted request appends exactly its own entry, in
    request order, to an otherwise untouched ledger.
   */
  function Run(db: Db, reqs: seq<MouvementRequest>): (r: Result<Db>)
    ensures |reqs| == 0 ==> r == Ok(db)
    ensures |reqs| > 0 && EnregistrerMouvement(db, reqs[0]).Err? ==> r == Err(EnregistrerMouvement(db, reqs[0]).error)
    ensures |reqs| == 1 ==> && (r.Ok? <==> EnregistrerMouvement(db, reqs[0]).Ok?)
                            && (r.Ok? ==> r.value == EnregistrerMouvement(db, reqs[0]).value.0)
    ensures r.Err? ==> exists i :: 0 <= i < |reqs| && PeutRefuser(db, reqs[i], r.error)
    ensures r.Ok? ==> forall i :: 0 <= i < |reqs| ==> References(db, reqs[i])
    ensures r.Ok? ==> && r.value.produits.Keys == db.produits.Keys
                      && r.value.fournisseurs == db.fournisseurs
                      && r.value.commandes == db.commandes
    ensures r.Ok? ==> && |r.value.mouvements| == |db.mouvements| + |reqs|
                      && r.value.mouvements[..|db.mouvements|] == db.mouvements
    ensures r.Ok? ==> forall i :: 0 <= i < |reqs| ==> Enregistre(r.value.mouvements[|db.mouvements| + i], reqs[i])
    decreases |reqs|
  {
    if |reqs| == 0 then Ok(db)
    else
      var premier := EnregistrerMouvement(db, reqs[0]);
      if premier.Err? then
        Err(premier.error)
      else
        var db1 := premier.value.0;
        var r := Run(db1, reqs[1..]);
        assert forall i :: 1 <= i < |reqs| ==> reqs[i] == reqs[1..][i - 1];
        assert db1.produits.Keys == db.produits.Keys;
        if r.Ok? then
          r
        else
          assert exists i :: 0 <= i < |reqs| && PeutRefuser(db, reqs[i], r.error) by {
            var j :| 0 <= j < |reqs[1..]| && PeutRefuser(db1, reqs[1..][j], r.error);
            assert PeutRefuser(db, reqs[j + 1], r.error);
          }
          r
  }

  /**
    A successful run leaves the stock of every product it touched
    non-negative, and keeps non-negative every stock that already was.
   */
  lemma {:induction false} RunLaisseLesStocksPositifs(db: Db, reqs: seq<MouvementRequest>)
    requires Run(db, reqs).Ok?
    ensures var db' := Run(db, reqs).value;
            && (forall pid | pid in db.produits && db.produits[pid].stockActuel >= 0 :: db'.produits[pid].stockActuel >= 0)
            && (forall i :: 0 <= i < |reqs| ==>
                  reqs[i].produitId in db'.produits && db'.produits[reqs[i].produitId].stockActuel >= 0)
    decreases |reqs|
  {
    if |reqs| > 0 {
      var db1 := EnregistrerMouvement(db, reqs[0]).value.0;
      assert Run(db1, reqs[1..]) == Run(db, reqs);
      RunLaisseLesStocksPositifs(db1, reqs[1..]);
      assert forall i :: 1 <= i < |reqs| ==> reqs[i] == reqs[1..][i - 1];
      assert db1.produits[reqs[0].produitId].stockActuel >= 0;
      assert forall pid | pid in db.produits && db.produits[pid].stockActuel >= 0 :: db1.produits[pid].stockActuel >= 0;
    }
  }

  /**
    Running `a` then `b` is running `a + b`: the concatenated run fails
    with `a`'s error when `a` fails, and otherwise behaves as `b` run on
    the state `a` left.
   */
  lemma {:induction false} RunConcatene(db: Db, a: seq<MouvementRequest>, b: seq<MouvementRequest>)
    ensures Run(db, a + b) == match Run(db, a) {
                                case Err(e) => Err(e)
                                case Ok(db') => Run(db', b)
                              }
    decreases |a|
  {
    if |a| == 0 {
      assert a + b == b;
    } else {
      assert (a + b)[0] == a[0];
      assert (a + b)[1..] == a[1..] + b;
      var premier := EnregistrerMouvement(db, a[0]);
      if premier.Ok? {
        RunConcatene(premier.value.0, a[1..], b);
      }
    }
  }

  /** The entries of ledger `ms` that concern product `pid`, in order. */
  function MouvementsDe(ms: seq<MouvementStock>, pid: ProduitId): seq<MouvementStock> {
    if |ms| == 0 then []
    else (if ms[0].produitId == pid then [ms[0]] else []) + MouvementsDe(ms[1..], pid)
  }

  /**
    A filter that keeps every entry of product `pid` leaves that product's
    ledger, order and multiplicity included, exactly as it was.
   */
  lemma {:induction false} MouvementsDeRetenir(ms: seq<MouvementStock>, garde: MouvementStock -> bool, pid: ProduitId)
    requires forall i :: 0 <= i < |ms| && ms[i].produitId == pid ==> garde(ms[i])
    ensures MouvementsDe(Retenir(ms, garde), pid) == MouvementsDe(ms, pid)
    decreases |ms|
  {
    if |ms| > 0 {
      MouvementsDeRetenir(ms[1..], garde, pid);
      var reste := Retenir(ms[1..], garde);
      if garde(ms[0]) {
        assert ([ms[0]] + reste)[1..] == reste;
      }
    }
  }

  /** Replays entries over a starting stock with the per-kind rules. */
  function Rejouer(stock: int, ms: seq<MouvementStock>): int
    decreases |ms|
  {
    if |ms| == 0 then stock
    else Rejouer(NouveauStock(stock, ms[0].typeMouvement, ms[0].quantite), ms[1..])
  }

  /**
    Replayability: after any successful run, replaying each product's new
    ledger entries, in creation order, over its stock before the run
    gives exactly its stock after the run.
   */
  lemma {:induction false} RunRejouable(db: Db, reqs: seq<MouvementRequest>, pid: ProduitId)
    requires Run(db, reqs).Ok?
    requires pid in db.produits
    ensures var db' := Run(db, reqs).value;
            Rejouer(db.produits[pid].stockActuel, MouvementsDe(db'.mouvements[|db.mouvements|..], pid))
            == db'.produits[pid].stockActuel
    decreases |reqs|
  {
    var db' := Run(db, reqs).value;
    if |reqs| == 0 {
      assert db'.mouvements[|db.mouvements|..] == [];
    } else {
      var (db1, m) := EnregistrerMouvement(db, reqs[0]).value;
      assert Run(db1, reqs[1..]) == Run(db, reqs);
      RunRejouable(db1, reqs[1..], pid);
      var reste := db'.mouvements[|db1.mouvements|..];
      var nouveaux := db'.mouvements[|db.mouvements|..];
      assert db1.mouvements == db.mouvements + [m];
      assert nouveaux == [m] + reste by {
        assert db'.mouvements[..|db1.mouvements|] == db1.mouvements;
        assert db'.mouvements[|db.mouvements|] == db1.mouvements[|db.mouvements|];
      }
      assert nouveaux[1..] == reste;
      var s := db.produits[pid].stockActuel;
      if m.produitId == pid {
        assert MouvementsDe(nouveaux, pid) == [m] + MouvementsDe(reste, pid);
        assert db1.produits[pid].stockActuel == NouveauStock(s, m.typeMouvement, m.quantite);
        assert ([m] + MouvementsDe(reste, pid))[1..] == MouvementsDe(reste, pid);
      } else {
        assert MouvementsDe(nouveaux, pid) == MouvementsDe(reste, pid);
        assert db1.produits[pid] == db.produits[pid];
      }
    }
  }

  /**
    A recorded entry is stamped with the stock its own movement produced:
    right after the call that appends it, it carries the product's
    current stock, non-negative.
   */
  lemma DernierMouvementPorteLeStock(db: Db, req: MouvementRequest)
    requires EnregistrerMouvement(db, req).Ok?
    ensures var (db', m) := EnregistrerMouvement(db, req).value;
            && m.stockApresMouvement == db'.produits[req.produitId].stockActuel
            && m.stockApresMouvement == NouveauStock(db.produits[req.produitId].stockActuel, req.typeMouvement, req.quantite)
            && m.stockApresMouvement >= 0
  {
  }
}
