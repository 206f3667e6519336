/**
  The purchase-order workflow of `CommandeFournisseurService`: creating
  an order from its lines, changing its status (delivery issues the
  ordered stock through the ledger engine) and deleting it.
 */
module PurchaseOrders {
  import opened Results
  import opened Money
  import opened Entities
  import opened StockMovements

  /**
    `LigneCommandeDTO` as the service reads it. The product and the
    quantity are taken as present (their annotations are not enforced on
    the nested list, and a null one makes the service fail outright); the
    price may be absent.
   */
  datatype LigneRequest = LigneRequest(produitId: ProduitId, quantite: int, prixUnitaire: Option<Cents>)

  /**
    `CommandeFournisseurDTO` as the service reads it: the supplier, the
    status the mapper copies onto the new order, and the line list, which
    may be null (`None`) or empty.
   */
  datatype CommandeRequest = CommandeRequest(
    fournisseurId: FournisseurId,
    statut: StatutCommande,
    lignes: Option<seq<LigneRequest>>)

  // ---------------------------------------------------------------------
  // Order creation
  // ---------------------------------------------------------------------

  /** The price a line is ordered at: its own, else the product's list price. */
  function PrixLigne(produits: map<ProduitId, Produit>, lr: LigneRequest): (r: Cents)
    requires lr.produitId in produits
    ensures lr.prixUnitaire.Some? ==> r == lr.prixUnitaire.value
    ensures lr.prixUnitaire.None? ==> r == produits[lr.produitId].prixUnitaire
  {
    lr.prixUnitaire.GetOr(produits[lr.produitId].prixUnitaire)
  }

  /**
    The loop of `buildLignesCommande` over a non-empty list: each line's
    product must exist (the first missing one aborts); each line keeps
    its product and quantity, gets its price (defaulting to the product's
    list price) and its subtotal, in the order of the request.
   */
  function ConstruireLignes(produits: map<ProduitId, Produit>, lrs: seq<LigneRequest>): (r: Result<seq<LigneCommande>>)
    ensures r.Ok? <==> forall i :: 0 <= i < |lrs| ==> lrs[i].produitId in produits
    ensures r.Err? ==> r.error == NotFound(MissingProduit)
    ensures r.Ok? ==> |r.value| == |lrs|
    ensures r.Ok? ==> forall i :: 0 <= i < |lrs| ==>
                        && r.value[i].produitId == lrs[i].produitId
                        && r.value[i].quantite == Some(lrs[i].quantite)
                        && r.value[i].prixUnitaire == Some(PrixLigne(produits, lrs[i]))
                        && SousTotalCoherent(r.value[i])
  {
    if |lrs| == 0 then Ok([])
    else if lrs[0].produitId !in produits then Err(NotFound(MissingProduit))
    else
      var lr := lrs[0];
      var ligne := CalculerSousTotal(LigneCommande(lr.produitId, Some(lr.quantite), Some(PrixLigne(produits, lr)), None));
      var reste :- ConstruireLignes(produits, lrs[1..]);
      assert forall i :: 1 <= i < |lrs| ==> lrs[i] == lrs[1..][i - 1];
      Ok([ligne] + reste)
  }

  /** `buildLignesCommande`: a null or empty line list is refused before any product is read. */
  function BuildLignesCommande(produits: map<ProduitId, Produit>, lignes: Option<seq<LigneRequest>>): (r: Result<seq<LigneCommande>>)
    ensures lignes.None? || |lignes.value| == 0 ==> r == Err(Business(NoOrderLines))
    ensures lignes.Some? && |lignes.value| > 0 ==> r == ConstruireLignes(produits, lignes.value)
  {
    if lignes.None? || |lignes.value| == 0 then Err(Business(NoOrderLines))
    else ConstruireLignes(produits, lignes.value)
  }

  /** Every line has had its subtotal computed. */
  predicate SousTotauxCalcules(lignes: seq<LigneCommande>) {
    forall i :: 0 <= i < |lignes| ==> lignes[i].sousTotal.Some?
  }

  /** The sum of the subtotals, added from the first line to the last, starting from 0. */
  function SommeSousTotaux(lignes: seq<LigneCommande>): Cents
    requires SousTotauxCalcules(lignes)
  {
    if |lignes| == 0 then 0
    else SommeSousTotaux(lignes[..|lignes| - 1]) + lignes[|lignes| - 1].sousTotal.value
  }

  /** `calculerMontantTotal`: the subtotals reduced with `+` from zero. */
  method CalculerMontantTotal(lignes: seq<LigneCommande>) returns (total: Cents)
    requires SousTotauxCalcules(lignes)
    ensures total == SommeSousTotaux(lignes)
  {
    total := 0;
    var i := 0;
    while i < |lignes|
      invariant 0 <= i <= |lignes|
      invariant total == SommeSousTotaux(lignes[..i])
    {
      total := total + lignes[i].sousTotal.value;
      i := i + 1;
      assert lignes[..i][..i - 1] == lignes[..i - 1];
    }
    assert lignes[..|lignes|] == lignes;
  }

  /** An order whose lines are complete, coherent, and sum to its total. */
  predicate CommandeCoherente(c: Commande) {
    && LignesCompletes(c.lignes)
    && (forall i :: 0 <= i < |c.lignes| ==> SousTotalCoherent(c.lignes[i]))
    && SousTotauxCalcules(c.lignes)
    && c.montantTotal == SommeSousTotaux(c.lignes)
  }

  /**
    `createCommande`: the supplier is looked up first, then the lines are
    built (refusing a null or empty list, then any unknown product). The
    saved order has the requested supplier and status, one line per
    requested line in the same order, and a total equal to the sum of the
    subtotals. `id` is the identity the database assigns.
   */
  method CreateCommande(db: Db, req: CommandeRequest, id: CommandeId) returns (r: Result<(Db, Commande)>)
    requires id !in db.commandes
    ensures req.fournisseurId !in db.fournisseurs ==> r == Err(NotFound(MissingFournisseur))
    ensures (req.fournisseurId in db.fournisseurs && (req.lignes.None? || |req.lignes.value| == 0))
              ==> r == Err(Business(NoOrderLines))
    ensures r.Ok? <==> && req.fournisseurId in db.fournisseurs
                       && req.lignes.Some? && |req.lignes.value| > 0
                       && forall i :: 0 <= i < |req.lignes.value| ==> req.lignes.value[i].produitId in db.produits
    ensures (req.fournisseurId in db.fournisseurs && req.lignes.Some? && |req.lignes.value| > 0 && r.Err?)
              ==> r.error == NotFound(MissingProduit)
    ensures r.Ok? ==>
              var (db', c) := r.value;
              var lrs := req.lignes.value;
              && db' == db.(commandes := db.commandes[id := c])
              && c.fournisseurId == req.fournisseurId
              && c.statut == req.statut
              && CommandeCoherente(c)
              && |c.lignes| == |lrs|
              && forall i :: 0 <= i < |lrs| ==>
                   && c.lignes[i].produitId == lrs[i].produitId
                   && c.lignes[i].quantite == Some(lrs[i].quantite)
                   && c.lignes[i].prixUnitaire == Some(PrixLigne(db.produits, lrs[i]))
  {
    if req.fournisseurId !in db.fournisseurs {
      return Err(NotFound(MissingFournisseur));
    }
    var built := BuildLignesCommande(db.produits, req.lignes);
    if built.Err? {
      return Err(built.error);
    }
    var lignes := built.value;
    var total := CalculerMontantTotal(lignes);
    var c := Commande(req.fournisseurId, req.statut, total, lignes);
    r := Ok((db.(commandes := db.commandes[id := c]), c));
  }

  // ---------------------------------------------------------------------
  // Status change and the delivery fan-out
  // ---------------------------------------------------------------------

  /** The one status edge with a side effect: into LIVREE from any other status. */
  predicate EstLivraison(ancien: StatutCommande, nouveau: StatutCommande) {
    ancien != Livree && nouveau == Livree
  }

  /** Ledger entry `m` is the issue that delivers line `l` of order `id`. */
  predicate SortieDeLigne(m: MouvementStock, id: CommandeId, l: LigneCommande) {
    && m.typeMouvement == Sortie
    && m.commandeId == Some(id)
    && m.produitId == l.produitId
    && Some(m.quantite) == l.quantite
    && m.prixUnitaire == l.prixUnitaire
  }

  /** One SORTIE per line, carrying the line's product, quantity and price and the order id. */
  function SortiesDeLivraison(id: CommandeId, lignes: seq<LigneCommande>): (r: seq<MouvementRequest>)
    requires LignesCompletes(lignes)
    ensures |r| == |lignes|
    ensures forall i :: 0 <= i < |lignes| ==>
              && r[i].typeMouvement == Sortie
              && r[i].commandeId == Some(id)
              && r[i].produitId == lignes[i].produitId
              && Some(r[i].quantite) == lignes[i].quantite
              && r[i].prixUnitaire == lignes[i].prixUnitaire
  {
    seq(|lignes|, i requires 0 <= i < |lignes| =>
      MouvementRequest(lignes[i].produitId, Some(id), Sortie, lignes[i].quantite.value, lignes[i].prixUnitaire))
  }

  /**
    `updateStatut`: any status may follow any other (there is no
    transition table). Only on the edge into LIVREE is one SORTIE per line
    recorded through the ledger engine; the whole call is one
    transaction, so a refused line refuses the status change too.
   */
  function UpdateStatut(db: Db, id: CommandeId, nouveau: StatutCommande): (r: Result<Db>)
    requires id in db.commandes ==> LignesCompletes(db.commandes[id].lignes)
    ensures id !in db.commandes ==> r == Err(NotFound(MissingCommande))
    ensures r.Ok? ==> && id in db.commandes
                      && r.value.commandes == db.commandes[id := db.commandes[id].(statut := nouveau)]
                      && r.value.fournisseurs == db.fournisseurs
                      && r.value.produits.Keys == db.produits.Keys
    ensures id in db.commandes && !EstLivraison(db.commandes[id].statut, nouveau) ==>
              r == Ok(db.(commandes := db.commandes[id := db.commandes[id].(statut := nouveau)]))
    ensures r.Ok? && EstLivraison(db.commandes[id].statut, nouveau) ==>
              var lignes := db.commandes[id].lignes;
              && |r.value.mouvements| == |db.mouvements| + |lignes|
              && r.value.mouvements[..|db.mouvements|] == db.mouvements
              && forall i :: 0 <= i < |lignes| ==> SortieDeLigne(r.value.mouvements[|db.mouvements| + i], id, lignes[i])
    ensures id in db.commandes && EstLivraison(db.commandes[id].statut, nouveau) && r.Err? ==>
              var lignes := db.commandes[id].lignes;
              || (r.error == NotFound(MissingProduit) && exists i :: 0 <= i < |lignes| && lignes[i].produitId !in db.produits)
              || r.error == Business(InsufficientStock)
  {
    if id !in db.commandes then Err(NotFound(MissingCommande))
    else
      var commande := db.commandes[id];
      var db1 := db.(commandes := db.commandes[id := commande.(statut := nouveau)]);
      if EstLivraison(commande.statut, nouveau) then
        var sorties := SortiesDeLivraison(id, commande.lignes);
        var r := Run(db1, sorties);
        assert forall i :: 0 <= i < |commande.lignes| ==>
                 sorties[i] == MouvementRequest(commande.lignes[i].produitId, Some(id), Sortie,
                                                commande.lignes[i].quantite.value, commande.lignes[i].prixUnitaire);
        assert r.Err? ==> exists i :: 0 <= i < |sorties| && PeutRefuser(db1, sorties[i], r.error);
        assert forall i :: 0 <= i < |sorties| ==> sorties[i].commandeId.value in db1.commandes;
        assert r.Ok? ==> forall i :: 0 <= i < |commande.lignes| ==>
                           SortieDeLigne(r.value.mouvements[|db.mouvements| + i], id, commande.lignes[i])
        by {
          if r.Ok? {
            forall i | 0 <= i < |commande.lignes|
              ensures SortieDeLigne(r.value.mouvements[|db.mouvements| + i], id, commande.lignes[i])
            {
              assert Enregistre(r.value.mouvements[|db1.mouvements| + i], sorties[i]);
            }
          }
        }
        r
      else
        Ok(db1)
  }

  /** Total quantity the requests issue of product `pid`. */
  function QuantiteSortie(reqs: seq<MouvementRequest>, pid: ProduitId): int {
    if |reqs| == 0 then 0
    else (if reqs[0].produitId == pid then reqs[0].quantite else 0) + QuantiteSortie(reqs[1..], pid)
  }

  /**
    A successful run of issues lowers each product's stock by the total
    quantity issued of it and leaves every CUMP, and everything else
    about the product, as it was.
   */
  lemma {:induction false} RunDeSortiesDebite(db: Db, reqs: seq<MouvementRequest>, pid: ProduitId)
    requires forall i :: 0 <= i < |reqs| ==> reqs[i].typeMouvement == Sortie
    requires Run(db, reqs).Ok? && pid in db.produits
    ensures var p' := Run(db, reqs).value.produits[pid];
            && p'.stockActuel == db.produits[pid].stockActuel - QuantiteSortie(reqs, pid)
            && p' == db.produits[pid].(stockActuel := p'.stockActuel)
    decreases |reqs|
  {
    if |reqs| > 0 {
      var (db1, m) := EnregistrerMouvement(db, reqs[0]).value;
      assert Run(db1, reqs[1..]) == Run(db, reqs);
      assert pid in db1.produits;
      RunDeSortiesDebite(db1, reqs[1..], pid);
    }
  }

  /** Total ordered quantity of product `pid` over complete lines. */
  function QuantiteCommandee(lignes: seq<LigneCommande>, pid: ProduitId): int
    requires LignesCompletes(lignes)
  {
    if |lignes| == 0 then 0
    else (if lignes[0].produitId == pid then lignes[0].quantite.value else 0) + QuantiteCommandee(lignes[1..], pid)
  }

  lemma {:induction false} QuantiteSortieDeLivraison(id: CommandeId, lignes: seq<LigneCommande>, pid: ProduitId)
    requires LignesCompletes(lignes)
    ensures QuantiteSortie(SortiesDeLivraison(id, lignes), pid) == QuantiteCommandee(lignes, pid)
    decreases |lignes|
  {
    if |lignes| > 0 {
      assert SortiesDeLivraison(id, lignes)[1..] == SortiesDeLivraison(id, lignes[1..]);
      QuantiteSortieDeLivraison(id, lignes[1..], pid);
    }
  }

  /**
    A delivered order has taken its stock: each product's stock is lower
    by the quantity ordered of it across all lines, and no CUMP moved.
   */
  lemma LivraisonDebiteLeStock(db: Db, id: CommandeId, pid: ProduitId)
    requires id in db.commandes && LignesCompletes(db.commandes[id].lignes)
    requires EstLivraison(db.commandes[id].statut, Livree)
    requires UpdateStatut(db, id, Livree).Ok? && pid in db.produits
    ensures var p' := UpdateStatut(db, id, Livree).value.produits[pid];
            && p'.stockActuel == db.produits[pid].stockActuel - QuantiteCommandee(db.commandes[id].lignes, pid)
            && p'.coutMoyenPondere == db.produits[pid].coutMoyenPondere
  {
    var commande := db.commandes[id];
    var db1 := db.(commandes := db.commandes[id := commande.(statut := Livree)]);
    var reqs := SortiesDeLivraison(id, commande.lignes);
    RunDeSortiesDebite(db1, reqs, pid);
    QuantiteSortieDeLivraison(id, commande.lignes, pid);
  }

  /** With no negative quantity among the requests, no product is issued a negative total. */
  lemma {:induction false} QuantiteSortiePositive(reqs: seq<MouvementRequest>, pid: ProduitId)
    requires forall i :: 0 <= i < |reqs| ==> reqs[i].quantite >= 0
    ensures QuantiteSortie(reqs, pid) >= 0
    decreases |reqs|
  {
    if |reqs| > 0 {
      QuantiteSortiePositive(reqs[1..], pid);
    }
  }

  /**
    A run of issues of non-negative quantities, each on a known product
    and a known order, succeeds whenever each product it touches has at
    least the total quantity the run issues of it.
   */
  lemma {:induction false} RunDeSortiesReussit(db: Db, reqs: seq<MouvementRequest>)
    requires forall i :: 0 <= i < |reqs| ==>
               && reqs[i].typeMouvement == Sortie
               && reqs[i].quantite >= 0
               && References(db, reqs[i])
               && QuantiteSortie(reqs, reqs[i].produitId) <= db.produits[reqs[i].produitId].stockActuel
    ensures Run(db, reqs).Ok?
    decreases |reqs|
  {
    if |reqs| > 0 {
      var p0 := reqs[0].produitId;
      var reste := reqs[1..];
      assert forall i :: 0 <= i < |reste| ==> reste[i] == reqs[i + 1];
      QuantiteSortiePositive(reste, p0);
      var premier := EnregistrerMouvement(db, reqs[0]);
      assert premier.Ok?;
      var db1 := premier.value.0;
      forall i | 0 <= i < |reste|
        ensures References(db1, reste[i])
        ensures QuantiteSortie(reste, reste[i].produitId) <= db1.produits[reste[i].produitId].stockActuel
      {
        var pid := reste[i].produitId;
        assert QuantiteSortie(reqs, pid) <= db.produits[pid].stockActuel;
      }
      RunDeSortiesReussit(db1, reste);
    }
  }

  /**
    Every line's product exists and holds at least the total quantity the
    order asks of it across all its lines.
   */
  predicate LivraisonCouverte(produits: map<ProduitId, Produit>, lignes: seq<LigneCommande>)
    requires LignesCompletes(lignes)
  {
    forall i :: 0 <= i < |lignes| ==>
      && lignes[i].produitId in produits
      && QuantiteCommandee(lignes, lignes[i].produitId) <= produits[lignes[i].produitId].stockActuel
  }

  /**
    When a delivery goes through: a successful delivery had every line's
    product on hand in the full ordered quantity; conversely, an order of
    non-negative quantities whose products are all covered is delivered.
   */
  lemma LivraisonReussit(db: Db, id: CommandeId)
    requires id in db.commandes && LignesCompletes(db.commandes[id].lignes)
    requires EstLivraison(db.commandes[id].statut, Livree)
    ensures UpdateStatut(db, id, Livree).Ok? ==> LivraisonCouverte(db.produits, db.commandes[id].lignes)
    ensures (forall i :: 0 <= i < |db.commandes[id].lignes| ==> db.commandes[id].lignes[i].quantite.value >= 0)
            && LivraisonCouverte(db.produits, db.commandes[id].lignes)
            ==> UpdateStatut(db, id, Livree).Ok?
  {
    var lignes := db.commandes[id].lignes;
    var db1 := db.(commandes := db.commandes[id := db.commandes[id].(statut := Livree)]);
    var reqs := SortiesDeLivraison(id, lignes);
    assert UpdateStatut(db, id, Livree) == Run(db1, reqs);
    forall pid
      ensures QuantiteSortie(reqs, pid) == QuantiteCommandee(lignes, pid)
    {
      QuantiteSortieDeLivraison(id, lignes, pid);
    }
    if UpdateStatut(db, id, Livree).Ok? {
      RunLaisseLesStocksPositifs(db1, reqs);
      forall i | 0 <= i < |lignes|
        ensures lignes[i].produitId in db.produits
        ensures QuantiteCommandee(lignes, lignes[i].produitId) <= db.produits[lignes[i].produitId].stockActuel
      {
        assert References(db1, reqs[i]);
        RunDeSortiesDebite(db1, reqs, lignes[i].produitId);
      }
    }
    if (forall i :: 0 <= i < |lignes| ==> lignes[i].quantite.value >= 0) && LivraisonCouverte(db.produits, lignes) {
      RunDeSortiesReussit(db1, reqs);
    }
  }

  /**
    Delivery is issued once: confirming LIVREE on an order that is
    already LIVREE records nothing and changes nothing.
   */
  lemma LivraisonUneSeuleFois(db: Db, id: CommandeId)
    requires id in db.commandes && LignesCompletes(db.commandes[id].lignes)
    requires UpdateStatut(db, id, Livree).Ok?
    ensures var db' := UpdateStatut(db, id, Livree).value;
            UpdateStatut(db', id, Livree) == Ok(db')
  {
    var db' := UpdateStatut(db, id, Livree).value;
    assert db'.commandes[id] == db.commandes[id].(statut := Livree);
    assert db'.commandes[id := db'.commandes[id].(statut := Livree)] == db'.commandes;
  }

  /** Two lines (2 of A at 10.00, 3 of B at 15.00) make an order of 65.00. */
  method ExempleCreation(db: Db, a: ProduitId, b: ProduitId, f: FournisseurId, id: CommandeId)
    returns (r: Result<(Db, Commande)>)
    requires a in db.produits && b in db.produits && f in db.fournisseurs && id !in db.commandes
    ensures r.Ok? && r.value.1.montantTotal == 6500 && r.value.1.statut == EnAttente
  {
    var lignes := [LigneRequest(a, 2, Some(1000)), LigneRequest(b, 3, Some(1500))];
    r := CreateCommande(db, CommandeRequest(f, EnAttente, Some(lignes)), id);
    var c := r.value.1;
    assert |c.lignes| == 2;
    assert c.lignes[0].sousTotal == Some(2000) by { assert SousTotalCoherent(c.lignes[0]); }
    assert c.lignes[1].sousTotal == Some(4500) by { assert SousTotalCoherent(c.lignes[1]); }
    assert c.lignes[..1][..0] == [];
    assert SommeSousTotaux(c.lignes[..1]) == 2000;
    assert c.lignes[..|c.lignes| - 1] == c.lignes[..1];
  }

  // ---------------------------------------------------------------------
  // Deletion
  // ---------------------------------------------------------------------

  /**
    `deleteCommande`: an unknown id is refused; otherwise the order is
    removed, and with it (the order's `mouvements` collection cascades
    every operation) the ledger entries that reference it. Products keep
    their stock: a delivered order's issues disappear from the ledger
    while their effect on the stock remains.
   */
  function DeleteCommande(db: Db, id: CommandeId): (r: Result<Db>)
    ensures id !in db.commandes <==> r == Err(NotFound(MissingCommande))
    ensures r.Ok? ==> && r.value.commandes == db.commandes - {id}
                      && r.value.produits == db.produits
                      && r.value.fournisseurs == db.fournisseurs
                      && forall m :: m in r.value.mouvements <==> m in db.mouvements && m.commandeId != Some(id)
    ensures r.Ok? ==> forall m :: multiset(r.value.mouvements)[m] ==
                                    if m.commandeId != Some(id) then multiset(db.mouvements)[m] else 0
  {
    if id !in db.commandes then Err(NotFound(MissingCommande))
    else
      Ok(db.(commandes := db.commandes - {id},
             mouvements := Retenir(db.mouvements, (m: MouvementStock) => m.commandeId != Some(id))))
  }

  /**
    Deleting an order that no ledger entry references (one never
    delivered) leaves the ledger exactly as it was; deleting one that is
    referenced keeps the other entries in their original order, as if
    the order's entries had never been written.
   */
  lemma DeleteCommandeGardeLeReste(db: Db, id: CommandeId, a: seq<MouvementStock>, b: seq<MouvementStock>)
    requires DeleteCommande(db, id).Ok?
    ensures (forall i :: 0 <= i < |db.mouvements| ==> db.mouvements[i].commandeId != Some(id))
            ==> DeleteCommande(db, id).value.mouvements == db.mouvements
    ensures db.mouvements == a + b ==>
            DeleteCommande(db, id).value.mouvements
            == DeleteCommande(db.(mouvements := a), id).value.mouvements
               + DeleteCommande(db.(mouvements := b), id).value.mouvements
  {
    var garde := (m: MouvementStock) => m.commandeId != Some(id);
    if forall i :: 0 <= i < |db.mouvements| ==> db.mouvements[i].commandeId != Some(id) {
      RetenirToutGarde(db.mouvements, garde);
    }
    RetenirConcatene(a, b, garde);
  }
}
