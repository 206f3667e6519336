/**
  `FournisseurService`: supplier creation and update, guarded by the
  rule that a non-blank ICE (the company tax identifier) belongs to at
  most one supplier.
 */
module Suppliers {
  import opened Results
  import opened Entities

  /**
    `Character.isWhitespace` on a code point: the ASCII controls TAB to
    CR and FS to US, the space, and the Unicode space, line and paragraph
    separators other than the three no-break spaces (U+00A0, U+2007,
    U+202F).
   */
  predicate EstEspace(c: char) {
    || '\U{0009}' <= c <= '\U{000D}'
    || '\U{001C}' <= c <= '\U{0020}'
    || c == '\U{1680}'
    || ('\U{2000}' <= c <= '\U{200A}' && c != '\U{2007}')
    || c == '\U{2028}' || c == '\U{2029}' || c == '\U{205F}' || c == '\U{3000}'
  }

  /** `String.isBlank`: empty, or only white space. */
  predicate EstVide(s: string) {
    forall i :: 0 <= i < |s| ==> EstEspace(s[i])
  }

  /** A string is blank exactly when both of its halves are. */
  lemma EstVideConcatene(a: string, b: string)
    ensures EstVide(a + b) <==> EstVide(a) && EstVide(b)
  {
    assert forall i :: 0 <= i < |a| ==> (a + b)[i] == a[i];
    assert forall i :: 0 <= i < |b| ==> (a + b)[|a| + i] == b[i];
  }

  /**
    `isBlank` on typical values: the empty string, ASCII white space and
    an em space are blank; a no-break space and a real identifier are not.
   */
  lemma ExemplesBlancs()
    ensures EstVide("")
    ensures EstVide(" \t\n")
    ensures EstVide("\U{2003}")
    ensures !EstVide("\U{00A0}")
    ensures !EstVide(" ICE ")
  {
    assert !EstEspace("\U{00A0}"[0]);
    assert !EstEspace(" ICE "[1]);
  }

  /** An ICE the service actually checks: present and not blank. */
  predicate IceRenseigne(ice: Option<string>) {
    ice.Some? && !EstVide(ice.value)
  }

  /**
    The unique constraint on the ICE column as far as the service relies
    on it: no two suppliers share a non-blank ICE, so `findByIce` finds at
    most one.
   */
  ghost predicate IceUniques(fs: map<FournisseurId, Fournisseur>) {
    forall a, b | a in fs && b in fs && IceRenseigne(fs[a].ice) && fs[b].ice == fs[a].ice :: a == b
  }

  /**
    `validateIceAvailability(ice, currentId)`: a null or blank ICE passes
    without a lookup; an ICE nobody holds passes; on creation (no current
    id) a held ICE is refused; on update it passes only when its holder is
    the supplier being updated.
   */
  function ValidateIceAvailability(fs: map<FournisseurId, Fournisseur>, ice: Option<string>,
                                   currentId: Option<FournisseurId>): (r: Outcome)
    requires IceUniques(fs)
    ensures r.Pass? <==> !IceRenseigne(ice) || forall fid | fid in fs && fs[fid].ice == ice :: currentId == Some(fid)
    ensures r.Fail? ==> r.error == Business(IceAlreadyUsed)
  {
    if ice.None? || EstVide(ice.value) then Pass
    else if !(exists fid | fid in fs :: fs[fid].ice == ice) then Pass
    else if currentId.None? then Fail(Business(IceAlreadyUsed))
    else if exists fid | fid in fs :: fs[fid].ice == ice && fid == currentId.value then
      assert forall fid | fid in fs && fs[fid].ice == ice :: currentId == Some(fid);
      Pass
    else Fail(Business(IceAlreadyUsed))
  }

  /** The concrete cases of the rule: new ICE, taken ICE, own ICE, blank ICE. */
  lemma ExemplesIce()
    ensures var fs := map[1 := Fournisseur("Acme", None, None, None, None, None, Some("ICE-1"))];
            && ValidateIceAvailability(fs, Some("ICE-2"), None) == Pass
            && ValidateIceAvailability(fs, Some("ICE-1"), None) == Fail(Business(IceAlreadyUsed))
            && ValidateIceAvailability(fs, Some("ICE-1"), Some(1)) == Pass
            && ValidateIceAvailability(fs, Some("ICE-1"), Some(2)) == Fail(Business(IceAlreadyUsed))
            && ValidateIceAvailability(fs, Some("  "), None) == Pass
            && ValidateIceAvailability(fs, None, None) == Pass
  {
    var fs := map[1 := Fournisseur("Acme", None, None, None, None, None, Some("ICE-1"))];
    assert 1 in fs && fs[1].ice == Some("ICE-1");
    assert !EstVide("ICE-1") by { assert !EstEspace("ICE-1"[0]); }
    assert !EstVide("ICE-2") by { assert !EstEspace("ICE-2"[0]); }
  }

  /** A `FournisseurDTO` as it reaches the service; only the company name is required. */
  datatype FournisseurDraft = FournisseurDraft(
    societe: string,
    adresse: Option<string>,
    contact: Option<string>,
    email: Option<string>,
    telephone: Option<string>,
    ville: Option<string>,
    ice: Option<string>)

  /** `toEntity`: a plain field copy, nulls included. */
  function VersEntite(d: FournisseurDraft): (f: Fournisseur)
    ensures f.societe == d.societe && f.ice == d.ice
    ensures f.adresse == d.adresse && f.contact == d.contact && f.email == d.email
    ensures f.telephone == d.telephone && f.ville == d.ville
  {
    Fournisseur(d.societe, d.adresse, d.contact, d.email, d.telephone, d.ville, d.ice)
  }

  /**
    A draft that carries every field creates the same supplier that it
    would write over any existing one: `toEntity` and the IGNORE merge
    agree when nothing is null.
   */
  lemma CreationCommeMiseAJourComplete(f: Fournisseur, d: FournisseurDraft)
    requires d.adresse.Some? && d.contact.Some? && d.email.Some?
    requires d.telephone.Some? && d.ville.Some? && d.ice.Some?
    ensures AppliquerDraft(f, d) == VersEntite(d)
  {
  }

  /** The new value of a nullable field under the IGNORE null-value strategy. */
  function Fusionner(ancien: Option<string>, v: Option<string>): (r: Option<string>)
    ensures v.Some? ==> r == v
    ensures v.None? ==> r == ancien
  {
    if v.Some? then v else ancien
  }

  /** `updateEntityFromDTO`: the company name always, the rest when present. */
  function AppliquerDraft(f: Fournisseur, d: FournisseurDraft): (r: Fournisseur)
    ensures r.societe == d.societe
    ensures r.ice == Fusionner(f.ice, d.ice)
    ensures r.adresse == Fusionner(f.adresse, d.adresse) && r.contact == Fusionner(f.contact, d.contact)
    ensures r.email == Fusionner(f.email, d.email) && r.telephone == Fusionner(f.telephone, d.telephone)
    ensures r.ville == Fusionner(f.ville, d.ville)
  {
    Fournisseur(d.societe, Fusionner(f.adresse, d.adresse), Fusionner(f.contact, d.contact),
                Fusionner(f.email, d.email), Fusionner(f.telephone, d.telephone),
                Fusionner(f.ville, d.ville), Fusionner(f.ice, d.ice))
  }

  /**
    `createFournisseur`: the ICE check (with no current id), then the
    insert under the id the database assigns.
   */
  function CreateFournisseur(db: Db, d: FournisseurDraft, id: FournisseurId): (r: Result<Db>)
    requires id !in db.fournisseurs && IceUniques(db.fournisseurs)
    ensures r.Ok? <==> !IceRenseigne(d.ice) || !exists fid | fid in db.fournisseurs :: db.fournisseurs[fid].ice == d.ice
    ensures r.Err? ==> r.error == Business(IceAlreadyUsed)
    ensures r.Ok? ==> && r.value.fournisseurs == db.fournisseurs[id := VersEntite(d)]
                      && r.value.produits == db.produits
                      && r.value.commandes == db.commandes
                      && r.value.mouvements == db.mouvements
  {
    var validation := ValidateIceAvailability(db.fournisseurs, d.ice, None);
    if validation.Fail? then Err(validation.error)
    else Ok(db.(fournisseurs := db.fournisseurs[id := VersEntite(d)]))
  }

  /**
    `updateFournisseur`: the lookup first (an unknown id is reported as
    missing whatever the ICE), then the ICE check with the supplier's own
    id, then the merge.
   */
  function UpdateFournisseur(db: Db, id: FournisseurId, d: FournisseurDraft): (r: Result<Db>)
    requires IceUniques(db.fournisseurs)
    ensures id !in db.fournisseurs ==> r == Err(NotFound(MissingFournisseur))
    ensures r.Ok? <==> && id in db.fournisseurs
                       && (!IceRenseigne(d.ice) || forall fid | fid in db.fournisseurs && db.fournisseurs[fid].ice == d.ice :: fid == id)
    ensures id in db.fournisseurs && r.Err? ==> r.error == Business(IceAlreadyUsed)
    ensures r.Ok? ==> && r.value.fournisseurs == db.fournisseurs[id := AppliquerDraft(db.fournisseurs[id], d)]
                      && r.value.produits == db.produits
                      && r.value.commandes == db.commandes
                      && r.value.mouvements == db.mouvements
  {
    if id !in db.fournisseurs then Err(NotFound(MissingFournisseur))
    else
      :- ValidateIceAvailability(db.fournisseurs, d.ice, Some(id));
      Ok(db.(fournisseurs := db.fournisseurs[id := AppliquerDraft(db.fournisseurs[id], d)]))
  }

  /**
    A successful creation keeps every non-blank ICE held by at most one
    supplier: the check refuses exactly the ICEs the new row would share.
   */
  lemma CreateFournisseurPreserveUnicite(db: Db, d: FournisseurDraft, id: FournisseurId)
    requires id !in db.fournisseurs && IceUniques(db.fournisseurs)
    requires CreateFournisseur(db, d, id).Ok?
    ensures IceUniques(CreateFournisseur(db, d, id).value.fournisseurs)
  {
  }

  /**
    A successful update keeps every non-blank ICE held by at most one
    supplier, whether the draft replaces the ICE, blanks it, or leaves it
    as it was.
   */
  lemma UpdateFournisseurPreserveUnicite(db: Db, id: FournisseurId, d: FournisseurDraft)
    requires IceUniques(db.fournisseurs)
    requires UpdateFournisseur(db, id, d).Ok?
    ensures IceUniques(UpdateFournisseur(db, id, d).value.fournisseurs)
  {
  }
}
