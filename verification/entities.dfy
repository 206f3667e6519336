/**
  The persisted entities (the JPA classes of the `entity` package) and
  the database that holds them. Repositories are modelled as maps from
  id to entity; the stock movement table is a sequence in recording
  order: recording a movement appends to it, and the cascading deletes
  of a product or an order filter it (see `Retenir`). Creation and
  update timestamps are not modelled.
 */
module Entities {
  import opened Results
  import opened Money

  type ProduitId = nat
  type FournisseurId = nat
  type CommandeId = nat

  /** `TypeMouvement`: receipt, issue, or stock-take correction. */
  datatype TypeMouvement = Entree | Sortie | Ajustement

  /** The `StatutCommande` constants the services use. */
  datatype StatutCommande = EnAttente | Validee | Livree

  /**
    `Produit`. The list price and the stock are NOT NULL columns; the
    weighted average cost (CUMP) column is nullable.
   */
  datatype Produit = Produit(
    nom: string,
    description: Option<string>,
    prixUnitaire: Cents,
    categorie: Option<string>,
    stockActuel: int,
    coutMoyenPondere: Option<Cents>)

  /** `Fournisseur`; the ICE (company tax identifier) column is unique. */
  datatype Fournisseur = Fournisseur(
    societe: string,
    adresse: Option<string>,
    contact: Option<string>,
    email: Option<string>,
    telephone: Option<string>,
    ville: Option<string>,
    ice: Option<string>)

  /**
    `LigneCommande`. Quantity and unit price are NOT NULL columns but the
    entity's own `calculerSousTotal` tolerates their absence, so they are
    nullable here; `LignesCompletes` states the column constraint.
   */
  datatype LigneCommande = LigneCommande(
    produitId: ProduitId,
    quantite: Option<int>,
    prixUnitaire: Option<Cents>,
    sousTotal: Option<Cents>)

  /** `CommandeFournisseur` (the order date is not modelled). */
  datatype Commande = Commande(
    fournisseurId: FournisseurId,
    statut: StatutCommande,
    montantTotal: Cents,
    lignes: seq<LigneCommande>)

  /**
    `MouvementStock`: one ledger entry. `prixUnitaire` is the price the
    request carried, possibly null; `stockApresMouvement` is the product's
    stock once the movement was applied.
   */
  datatype MouvementStock = MouvementStock(
    produitId: ProduitId,
    commandeId: Option<CommandeId>,
    typeMouvement: TypeMouvement,
    quantite: int,
    prixUnitaire: Option<Cents>,
    stockApresMouvement: int)

  /** The four tables the core reads and writes. */
  datatype Db = Db(
    produits: map<ProduitId, Produit>,
    fournisseurs: map<FournisseurId, Fournisseur>,
    commandes: map<CommandeId, Commande>,
    mouvements: seq<MouvementStock>)

  /** Every line carries the quantity and price its NOT NULL columns demand. */
  predicate LignesCompletes(lignes: seq<LigneCommande>) {
    forall i :: 0 <= i < |lignes| ==> lignes[i].quantite.Some? && lignes[i].prixUnitaire.Some?
  }

  /**
    `LigneCommande.calculerSousTotal` (run before every insert and
    update): when both quantity and price are present the subtotal
    becomes their product; otherwise the line is left as it was. Only
    the subtotal is ever written.
   */
  function CalculerSousTotal(l: LigneCommande): (r: LigneCommande)
    ensures r.produitId == l.produitId && r.quantite == l.quantite && r.prixUnitaire == l.prixUnitaire
    ensures l.quantite.Some? && l.prixUnitaire.Some? ==>
              r.sousTotal == Some(l.prixUnitaire.value * l.quantite.value)
    ensures l.quantite.None? || l.prixUnitaire.None? ==> r == l
  {
    if l.quantite.Some? && l.prixUnitaire.Some? then
      l.(sousTotal := Some(l.prixUnitaire.value * l.quantite.value))
    else
      l
  }

  /** Recomputing a subtotal a second time changes nothing. */
  lemma CalculerSousTotalIdempotent(l: LigneCommande)
    ensures CalculerSousTotal(CalculerSousTotal(l)) == CalculerSousTotal(l)
  {
  }

  /** The subtotal of a line whose subtotal has been computed. */
  predicate SousTotalCoherent(l: LigneCommande) {
    l.quantite.Some? && l.prixUnitaire.Some? && l.sousTotal == Some(l.prixUnitaire.value * l.quantite.value)
  }

  /**
    A complete line is coherent after `calculerSousTotal`, and a coherent
    line is a fixed point of it: the subtotal is a pure function of
    quantity and price and can never be set independently.
   */
  lemma CalculerSousTotalCoherent(l: LigneCommande)
    ensures l.quantite.Some? && l.prixUnitaire.Some? ==> SousTotalCoherent(CalculerSousTotal(l))
    ensures SousTotalCoherent(l) <==> l.quantite.Some? && l.prixUnitaire.Some? && CalculerSousTotal(l) == l
  {
  }

  /**
    The ledger entries that `garde` keeps, in their original order: what
    a cascading delete leaves of the movement table. Each kept entry
    keeps all its occurrences; each dropped entry loses all of them.
   */
  function Retenir(ms: seq<MouvementStock>, garde: MouvementStock -> bool): (r: seq<MouvementStock>)
    ensures forall m :: multiset(r)[m] == if garde(m) then multiset(ms)[m] else 0
    ensures forall m :: m in r <==> m in ms && garde(m)
    ensures |r| <= |ms|
  {
    if |ms| == 0 then []
    else
      var reste := Retenir(ms[1..], garde);
      assert ms == [ms[0]] + ms[1..];
      assert multiset(ms) == multiset([ms[0]]) + multiset(ms[1..]);
      if garde(ms[0]) then [ms[0]] + reste else reste
  }

  /** The filter distributes over concatenation, so it never reorders entries. */
  lemma {:induction false} RetenirConcatene(a: seq<MouvementStock>, b: seq<MouvementStock>, garde: MouvementStock -> bool)
    ensures Retenir(a + b, garde) == Retenir(a, garde) + Retenir(b, garde)
    decreases |a|
  {
    if |a| > 0 {
      assert (a + b)[1..] == a[1..] + b;
      RetenirConcatene(a[1..], b, garde);
    } else {
      assert a + b == b;
    }
  }

  /** A ledger whose every entry passes the guard survives the filter unchanged. */
  lemma {:induction false} RetenirToutGarde(ms: seq<MouvementStock>, garde: MouvementStock -> bool)
    requires forall i :: 0 <= i < |ms| ==> garde(ms[i])
    ensures Retenir(ms, garde) == ms
    decreases |ms|
  {
    if |ms| > 0 {
      RetenirToutGarde(ms[1..], garde);
      assert ms == [ms[0]] + ms[1..];
    }
  }
}
