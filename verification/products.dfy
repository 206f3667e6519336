/**
  `ProduitService`: the catalogue operations and the two stock/cost
  shortcuts that write a product directly, without going through the
  movement ledger.
 */
module Products {
  import opened Results
  import opened Money
  import opened Entities
  import opened StockMovements

  /**
    A `ProduitDTO` as it reaches the service: every field but the name may
    be null. The mapper copies it field by field.
   */
  datatype ProduitDraft = ProduitDraft(
    nom: string,
    description: Option<string>,
    prixUnitaire: Option<Cents>,
    categorie: Option<string>,
    stockActuel: Option<int>,
    coutMoyenPondere: Option<Cents>)

  /** A nullable number that, when present, is not negative. */
  predicate NonNegatif(v: Option<int>) {
    v.None? || v.value >= 0
  }

  /** What `validateProduit` accepts. */
  predicate ProduitValide(d: ProduitDraft) {
    NonNegatif(d.prixUnitaire) && NonNegatif(d.stockActuel) && NonNegatif(d.coutMoyenPondere)
  }

  /**
    `validateProduit`: price, then stock, then cost, each only when it is
    present; the first negative one decides the error.
   */
  function ValidateProduit(d: ProduitDraft): (r: Outcome)
    ensures r.Pass? <==> ProduitValide(d)
    ensures !NonNegatif(d.prixUnitaire) ==> r == Fail(Business(NegativeUnitPrice))
    ensures NonNegatif(d.prixUnitaire) && !NonNegatif(d.stockActuel) ==>
              r == Fail(Business(NegativeCurrentStock))
    ensures NonNegatif(d.prixUnitaire) && NonNegatif(d.stockActuel) && !NonNegatif(d.coutMoyenPondere) ==>
              r == Fail(Business(NegativeAverageCost))
  {
    if d.prixUnitaire.Some? && d.prixUnitaire.value < 0 then Fail(Business(NegativeUnitPrice))
    else if d.stockActuel.Some? && d.stockActuel.value < 0 then Fail(Business(NegativeCurrentStock))
    else if d.coutMoyenPondere.Some? && d.coutMoyenPondere.value < 0 then Fail(Business(NegativeAverageCost))
    else Pass
  }

  /** The three rules of `validateProduit` on concrete drafts. */
  lemma ExemplesValidation()
    ensures ValidateProduit(ProduitDraft("Vis", None, Some(-1), None, Some(-1), Some(-1)))
              == Fail(Business(NegativeUnitPrice))
    ensures ValidateProduit(ProduitDraft("Vis", None, None, None, Some(-1), Some(-1)))
              == Fail(Business(NegativeCurrentStock))
    ensures ValidateProduit(ProduitDraft("Vis", None, Some(0), None, Some(0), Some(-1)))
              == Fail(Business(NegativeAverageCost))
    ensures ValidateProduit(ProduitDraft("Vis", None, None, None, None, None)) == Pass
  {
  }

  /**
    `createProduit`: validate, then insert the mapped entity under the
    id the database assigns. Any draft may be refused by the validation;
    one that passes it is taken to carry a price and a stock, since the
    mapper copies a null onto a NOT NULL column and the insert then fails
    in the database.
   */
  function CreateProduit(db: Db, d: ProduitDraft, id: ProduitId): (r: Result<Db>)
    requires id !in db.produits
    requires ProduitValide(d) ==> d.prixUnitaire.Some? && d.stockActuel.Some?
    ensures r.Ok? <==> ProduitValide(d)
    ensures r.Err? ==> r.error == ValidateProduit(d).error
    ensures r.Ok? ==> && r.value.produits.Keys == db.produits.Keys + {id}
                      && (forall k | k in db.produits :: r.value.produits[k] == db.produits[k])
                      && r.value.fournisseurs == db.fournisseurs
                      && r.value.commandes == db.commandes
                      && r.value.mouvements == db.mouvements
    ensures r.Ok? ==> && r.value.produits[id].nom == d.nom
                      && r.value.produits[id].description == d.description
                      && r.value.produits[id].categorie == d.categorie
                      && Some(r.value.produits[id].prixUnitaire) == d.prixUnitaire
                      && Some(r.value.produits[id].stockActuel) == d.stockActuel
                      && r.value.produits[id].coutMoyenPondere == d.coutMoyenPondere
  {
    var validation := ValidateProduit(d);
    if validation.Fail? then Err(validation.error)
    else
      var p := Produit(d.nom, d.description, d.prixUnitaire.value, d.categorie,
                       d.stockActuel.value, d.coutMoyenPondere);
      Ok(db.(produits := db.produits[id := p]))
  }

  /**
    `updateEntityFromDTO` with the IGNORE null-value strategy: the name
    is always copied, every other field only when the draft carries it.
   */
  function AppliquerDraft(p: Produit, d: ProduitDraft): (r: Produit)
    ensures r.nom == d.nom
    ensures d.prixUnitaire.Some? ==> r.prixUnitaire == d.prixUnitaire.value
    ensures d.prixUnitaire.None? ==> r.prixUnitaire == p.prixUnitaire
    ensures d.stockActuel.Some? ==> r.stockActuel == d.stockActuel.value
    ensures d.stockActuel.None? ==> r.stockActuel == p.stockActuel
    ensures d.coutMoyenPondere.Some? ==> r.coutMoyenPondere == d.coutMoyenPondere
    ensures d.coutMoyenPondere.None? ==> r.coutMoyenPondere == p.coutMoyenPondere
    ensures d.description.Some? ==> r.description == d.description
    ensures d.description.None? ==> r.description == p.description
    ensures d.categorie.Some? ==> r.categorie == d.categorie
    ensures d.categorie.None? ==> r.categorie == p.categorie
  {
    Produit(d.nom,
            if d.description.Some? then d.description else p.description,
            d.prixUnitaire.GetOr(p.prixUnitaire),
            if d.categorie.Some? then d.categorie else p.categorie,
            d.stockActuel.GetOr(p.stockActuel),
            if d.coutMoyenPondere.Some? then d.coutMoyenPondere else p.coutMoyenPondere)
  }

  /** An all-null draft leaves a product as it was, apart from its name. */
  lemma DraftVideNeChangeRien(p: Produit, nom: string)
    ensures AppliquerDraft(p, ProduitDraft(nom, None, None, None, None, None)) == p.(nom := nom)
  {
  }

  /**
    `updateProduit`: the lookup comes first, so an unknown id is reported
    as missing whatever the draft holds; then validation; then the merge.
   */
  function UpdateProduit(db: Db, id: ProduitId, d: ProduitDraft): (r: Result<Db>)
    ensures id !in db.produits ==> r == Err(NotFound(MissingProduit))
    ensures id in db.produits && !ProduitValide(d) ==> r == Err(ValidateProduit(d).error)
    ensures r.Ok? <==> id in db.produits && ProduitValide(d)
    ensures r.Ok? ==> && r.value.produits == db.produits[id := AppliquerDraft(db.produits[id], d)]
                      && r.value.fournisseurs == db.fournisseurs
                      && r.value.commandes == db.commandes
                      && r.value.mouvements == db.mouvements
  {
    if id !in db.produits then Err(NotFound(MissingProduit))
    else
      :- ValidateProduit(d);
      Ok(db.(produits := db.produits[id := AppliquerDraft(db.produits[id], d)]))
  }

  /**
    `deleteProduit`: an unknown id is refused; otherwise the product is
    removed together with its ledger entries (its `mouvements` collection
    cascades every operation).
   */
  function DeleteProduit(db: Db, id: ProduitId): (r: Result<Db>)
    ensures id !in db.produits <==> r == Err(NotFound(MissingProduit))
    ensures r.Ok? ==> && r.value.produits == db.produits - {id}
                      && r.value.fournisseurs == db.fournisseurs
                      && r.value.commandes == db.commandes
                      && forall m :: m in r.value.mouvements <==> m in db.mouvements && m.produitId != id
    ensures r.Ok? ==> forall m :: multiset(r.value.mouvements)[m] == if m.produitId != id then multiset(db.mouvements)[m] else 0
  {
    if id !in db.produits then Err(NotFound(MissingProduit))
    else
      Ok(db.(produits := db.produits - {id},
             mouvements := Retenir(db.mouvements, (m: MouvementStock) => m.produitId != id)))
  }

  /**
    Deleting a product leaves the ledger of every other product, order and
    multiplicity included, exactly as it was, so replaying any other
    product's entries gives the same stock as before the deletion.
   */
  lemma DeleteProduitGardeLesAutresJournaux(db: Db, id: ProduitId, q: ProduitId)
    requires DeleteProduit(db, id).Ok? && q != id
    ensures MouvementsDe(DeleteProduit(db, id).value.mouvements, q) == MouvementsDe(db.mouvements, q)
  {
    MouvementsDeRetenir(db.mouvements, (m: MouvementStock) => m.produitId != id, q);
  }

  /**
    `ajusterStock`: the stock moves by `variation` unless it would fall
    below zero. The cost is untouched and no ledger entry is written.
   */
  function AjusterStock(db: Db, id: ProduitId, variation: int): (r: Result<Db>)
    ensures id !in db.produits ==> r == Err(NotFound(MissingProduit))
    ensures id in db.produits && db.produits[id].stockActuel + variation < 0 ==>
              r == Err(Business(NegativeResultingStock))
    ensures r.Ok? <==> id in db.produits && db.produits[id].stockActuel + variation >= 0
    ensures r.Ok? ==> && id in r.value.produits
                      && r.value.produits[id].stockActuel == db.produits[id].stockActuel + variation
                      && r.value.produits[id] == db.produits[id].(stockActuel := r.value.produits[id].stockActuel)
                      && (forall k | k in db.produits && k != id :: k in r.value.produits && r.value.produits[k] == db.produits[k])
                      && r.value.produits.Keys == db.produits.Keys
                      && r.value.fournisseurs == db.fournisseurs
                      && r.value.commandes == db.commandes
                      && r.value.mouvements == db.mouvements
  {
    if id !in db.produits then Err(NotFound(MissingProduit))
    else
      var p := db.produits[id];
      var nouveauStock := p.stockActuel + variation;
      if nouveauStock < 0 then Err(Business(NegativeResultingStock))
      else Ok(db.(produits := db.produits[id := p.(stockActuel := nouveauStock)]))
  }

  /** A stock of 10 adjusted by +5 becomes 15; adjusted by -11 it is refused. */
  lemma ExempleAjusterStock(db: Db, id: ProduitId)
    requires id in db.produits && db.produits[id].stockActuel == 10
    ensures AjusterStock(db, id, 5).Ok?
    ensures AjusterStock(db, id, 5).value.produits[id].stockActuel == 15
    ensures AjusterStock(db, id, -11) == Err(Business(NegativeResultingStock))
  {
  }

  /**
    A successful non-zero `ajusterStock` bypasses the ledger: no entry is
    added, yet the stock changes. So if replaying the product's whole
    ledger from some opening stock `s0` gave its stock before the call,
    the same replay no longer gives its stock after (contrast
    `RunRejouable`); in particular the entries the call wrote, none,
    do not explain the change.
   */
  lemma AjusterStockHorsJournal(db: Db, id: ProduitId, variation: int, s0: int)
    requires AjusterStock(db, id, variation).Ok? && variation != 0
    ensures var db' := AjusterStock(db, id, variation).value;
            && db'.mouvements == db.mouvements
            && (Rejouer(s0, MouvementsDe(db.mouvements, id)) == db.produits[id].stockActuel
                ==> Rejouer(s0, MouvementsDe(db'.mouvements, id)) != db'.produits[id].stockActuel)
            && Rejouer(db.produits[id].stockActuel, MouvementsDe(db'.mouvements[|db.mouvements|..], id))
               != db'.produits[id].stockActuel
  {
    var db' := AjusterStock(db, id, variation).value;
    assert db'.mouvements[|db.mouvements|..] == [];
  }

  /**
    `mettreAJourCoutMoyen`: a null or negative cost is refused before the
    product is even looked up; otherwise the cost becomes exactly that
    value and nothing else changes.
   */
  function MettreAJourCoutMoyen(db: Db, id: ProduitId, cout: Option<Cents>): (r: Result<Db>)
    ensures !(cout.Some? && cout.value >= 0) ==> r == Err(Business(NegativeAverageCost))
    ensures cout.Some? && cout.value >= 0 && id !in db.produits ==> r == Err(NotFound(MissingProduit))
    ensures r.Ok? <==> cout.Some? && cout.value >= 0 && id in db.produits
    ensures r.Ok? ==> && r.value.produits == db.produits[id := db.produits[id].(coutMoyenPondere := cout)]
                      && r.value.produits[id].stockActuel == db.produits[id].stockActuel
                      && r.value.fournisseurs == db.fournisseurs
                      && r.value.commandes == db.commandes
                      && r.value.mouvements == db.mouvements
  {
    if cout.None? || cout.value < 0 then Err(Business(NegativeAverageCost))
    else if id !in db.produits then Err(NotFound(MissingProduit))
    else Ok(db.(produits := db.produits[id := db.produits[id].(coutMoyenPondere := cout)]))
  }

  /**
    Setting the cost twice keeps only the second value: the first call
    leaves no trace (the shortcut keeps no history).
   */
  lemma MettreAJourCoutMoyenDernierGagne(db: Db, id: ProduitId, a: Cents, b: Cents)
    requires id in db.produits && a >= 0 && b >= 0
    ensures MettreAJourCoutMoyen(MettreAJourCoutMoyen(db, id, Some(a)).value, id, Some(b))
            == MettreAJourCoutMoyen(db, id, Some(b))
  {
    var p := db.produits[id];
    var db1 := MettreAJourCoutMoyen(db, id, Some(a)).value;
    assert db1.produits[id].(coutMoyenPondere := Some(b)) == p.(coutMoyenPondere := Some(b));
    assert db1.produits[id := p.(coutMoyenPondere := Some(b))] == db.produits[id := p.(coutMoyenPondere := Some(b))];
  }
}
