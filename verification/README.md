# Stock ledger and purchase orders of gestion-approvisionnements, in Dafny

This project models the business core of a Spring Boot procurement
application. It covers these services:

- the stock movement engine of `MouvementStockService`: receipts (ENTREE), issues (SORTIE) and stock-take corrections (AJUSTEMENT), the weighted average cost (CUMP) update, and the movement ledger, to which each recorded movement appends one entry (for requests that carry no id of their own);
- the purchase-order workflow of `CommandeFournisseurService`: creating an order from its lines, changing its status with the delivery fan-out into the ledger, and deleting it;
- the subtotal rule `LigneCommande.calculerSousTotal`;
- the product operations of `ProduitService`: validation, create/update/delete, the direct stock adjustment and the direct cost update;
- the supplier rule of `FournisseurService`: a non-blank ICE (company tax identifier) belongs to at most one supplier.

The model is a set of pure functions over one immutable database value.
`Entities.Db` holds the product, supplier and order tables as maps from
id to entity, and the movement table as a sequence in creation order.
Each operation returns a `Result`: either the new database or the
exception the service throws (`NotFound` for
`ResourceNotFoundException`, `Business` for `BusinessException`). An
error result carries no state, which models the transactional rollback:
nothing is saved. Money is integer cents, since every price and cost column
has scale 2. The one division, `BigDecimal.divide(n, 2, HALF_UP)`, is
`Money.DivHalfUp`, rounding to nearest with ties away from zero. Ids that
the database assigns are parameters with a freshness precondition.

Modules, one per file:

| file | module | what it holds |
|---|---|---|
| results.dfy | Results | `Option`, `Result`, `Outcome` and the error kinds |
| money.dfy | Money | cents and HALF_UP division |
| entities.dfy | Entities | the JPA entities, the database, `calculerSousTotal` |
| stock_movements.dfy | StockMovements | `enregistrerMouvement`, `recalculerCump`, runs of movements and their replay |
| purchase_orders.dfy | PurchaseOrders | `createCommande`, `updateStatut` with delivery, `deleteCommande` |
| products.dfy | Products | `ProduitService` |
| suppliers.dfy | Suppliers | `FournisseurService` and the ICE rule |

Where the code and the documented design of the system disagree, the
model follows the code:

- `updateStatut` runs in one transaction (class-level `@Transactional`). A delivery whose issue fails for one line therefore rolls back every line and the status change as well. Earlier lines are not kept.
- A new order keeps the status given in the request. It is not forced to EN_ATTENTE.
- There is no table of allowed status transitions. Any status may follow any other.
- Deleting an order or a product removes its ledger entries, because both collections are mapped with `cascade = ALL`. So ledger entries are not permanent.
- Failures are `ResourceNotFoundException` or `BusinessException`. There are no separate invalid-input or conflict kinds.
- No movement quantity is checked for positivity.
- An ENTREE whose resulting stock is zero or less sets both the stock and the CUMP to 0.
- Delivering an order records SORTIE movements, following the code's own comment. It does not record receipts.
- The unit test for an over-issue expects the message "ne peut pas devenir négatif", but the code's message is "Stock insuffisant...". Messages are not part of the model, so only the exception kind is stated.

## Model

| member | source | states |
|---|---|---|
| Money.DivHalfUp | gestion-approvisionnements/src/main/java/com/example/gestion_approvisionnements/service/MouvementStockService.java:156-158 | the result is the HALF_UP rounding of n/d: the nearest integer, ties away from zero, on either side of zero |
| Money.HalfUpQuotientUnique | gestion-approvisionnements/src/main/java/com/example/gestion_approvisionnements/service/MouvementStockService.java:156-158 | HALF_UP rounding of a quotient has exactly one result |
| Money.DivHalfUpExact | gestion-approvisionnements/src/main/java/com/example/gestion_approvisionnements/service/MouvementStockService.java:156-158 | an exact quotient comes back unchanged |
| Money.DivHalfUpBetween | gestion-approvisionnements/src/main/java/com/example/gestion_approvisionnements/service/MouvementStockService.java:156-158 | whole bounds on the exact quotient also bound the rounded one |
| Entities.CalculerSousTotal | gestion-approvisionnements/src/main/java/com/example/gestion_approvisionnements/entity/LigneCommande.java:38-44 | with quantity and price both present, the subtotal becomes price times quantity; with either absent, the line is unchanged; product, quantity and price are never written |
| Entities.CalculerSousTotalIdempotent | gestion-approvisionnements/src/main/java/com/example/gestion_approvisionnements/entity/LigneCommande.java:38-44 | running the subtotal rule twice gives the same line as running it once |
| Entities.CalculerSousTotalCoherent | gestion-approvisionnements/src/main/java/com/example/gestion_approvisionnements/entity/LigneCommande.java:40-43 | a complete line is coherent after the rule; a line is coherent exactly when it is complete and a fixed point of the rule |
| Entities.Retenir | gestion-approvisionnements/src/main/java/com/example/gestion_approvisionnements/entity/Produit.java:47-48 | a cascading delete keeps every entry the guard accepts with all its occurrences and drops every occurrence of the others, never adding one |
| Entities.RetenirConcatene | gestion-approvisionnements/src/main/java/com/example/gestion_approvisionnements/entity/Produit.java:47-48 | the filter distributes over concatenation: the surviving entries stay in their original order |
| Entities.RetenirToutGarde | gestion-approvisionnements/src/main/java/com/example/gestion_approvisionnements/entity/CommandeFournisseur.java:44-45 | a ledger whose every entry passes the guard is left exactly as it was |
| StockMovements.RecalculerCump | gestion-approvisionnements/src/main/java/com/example/gestion_approvisionnements/service/MouvementStockService.java:139-162 | only stock and CUMP change; a resulting stock of 0 or less sets both to 0; otherwise the stock is old + q and the CUMP is the HALF_UP quotient of old value (null CUMP as 0) plus price times q, over the new stock |
| StockMovements.PremiereEntreeFixeLeCump | gestion-approvisionnements/src/test/java/com/example/gestion_approvisionnements/service/MouvementStockServiceTest.java:136-177 | a receipt into an empty stock sets the stock to q and the CUMP to exactly the receipt price |
| StockMovements.CumpEntreAncienEtPrix | gestion-approvisionnements/src/main/java/com/example/gestion_approvisionnements/service/MouvementStockService.java:146-158 | a positive receipt into a non-negative stock moves the CUMP to a value between the old CUMP and the receipt price |
| StockMovements.ExempleEntreeMoyennePonderee | gestion-approvisionnements/src/test/java/com/example/gestion_approvisionnements/service/MouvementStockServiceTest.java:93-133 | 100 at 2.00 plus 50 at 3.00 gives 150 at 2.33 |
| StockMovements.AppliquerMouvement | gestion-approvisionnements/src/main/java/com/example/gestion_approvisionnements/service/MouvementStockService.java:67-94 | success exactly when admissible: ENTREE always, SORTIE when stock - q >= 0, AJUSTEMENT when q >= 0; the new stock follows the kind and is never negative; ENTREE prices at the request price, else the list price; SORTIE and AJUSTEMENT keep the CUMP; the refusal kind per movement kind |
| StockMovements.EnregistrerMouvement | gestion-approvisionnements/src/main/java/com/example/gestion_approvisionnements/service/MouvementStockService.java:47-104 | a missing product is reported first, then a missing referenced order; success exactly when both exist and the movement is admissible; on success only that product changes, and exactly one entry is appended, carrying the request and the new stock |
| StockMovements.ExempleSortieInsuffisante | gestion-approvisionnements/src/test/java/com/example/gestion_approvisionnements/service/MouvementStockServiceTest.java:180-200 | issuing 200 from a stock of 100 is refused with a business error and nothing is written |
| StockMovements.ExempleAjustement | gestion-approvisionnements/src/test/java/com/example/gestion_approvisionnements/service/MouvementStockServiceTest.java:203-240 | an adjustment to 42 sets the stock and the stamp to 42 and keeps the CUMP |
| StockMovements.Run | gestion-approvisionnements/src/main/java/com/example/gestion_approvisionnements/service/CommandeFournisseurService.java:83-95 | a sequence of movements in one transaction: no request gives the starting state; a first request that is refused makes the run fail with its error; a single request behaves as one recorded movement; any failure is a refusal one of the requests can provoke; success means every request referenced a known product and order, and appends one entry per request, in order, each recording its request; product ids, suppliers and orders are unchanged |
| StockMovements.RunConcatene | gestion-approvisionnements/src/main/java/com/example/gestion_approvisionnements/service/CommandeFournisseurService.java:83-95 | a run of a + b fails with the error of a when a fails, and otherwise is b run on the state a left: each step runs on the state of the steps before it |
| StockMovements.RunLaisseLesStocksPositifs | gestion-approvisionnements/src/main/java/com/example/gestion_approvisionnements/service/MouvementStockService.java:67-94 | after a successful run every product it touched has a non-negative stock, and no non-negative stock became negative |
| StockMovements.MouvementsDeRetenir | gestion-approvisionnements/src/main/java/com/example/gestion_approvisionnements/entity/Produit.java:47-48 | a cascade filter that keeps every entry of a product leaves that product's ledger, order and multiplicity included, unchanged |
| StockMovements.RunRejouable | gestion-approvisionnements/src/main/java/com/example/gestion_approvisionnements/service/MouvementStockService.java:96-101 | replaying a product's new entries, in the order the run recorded them, from its old stock reproduces its new stock: the ledger explains the stock |
| StockMovements.DernierMouvementPorteLeStock | gestion-approvisionnements/src/main/java/com/example/gestion_approvisionnements/service/MouvementStockService.java:96-101 | the entry one recorded movement appends has a stockApresMouvement equal to the product's saved stock, is the stock the kind dictates, and is not negative |
| PurchaseOrders.ConstruireLignes | gestion-approvisionnements/src/main/java/com/example/gestion_approvisionnements/service/CommandeFournisseurService.java:135-152 | success exactly when every line's product exists, else a missing-product error; one line per request, in order, with its product and quantity, the request price or else the list price, and a coherent subtotal |
| PurchaseOrders.PrixLigne | gestion-approvisionnements/src/main/java/com/example/gestion_approvisionnements/service/CommandeFournisseurService.java:144-146 | a line is priced at its own price when it has one, else at the product's list price |
| PurchaseOrders.BuildLignesCommande | gestion-approvisionnements/src/main/java/com/example/gestion_approvisionnements/service/CommandeFournisseurService.java:130-133 | a null or empty line list is refused before any product is read |
| PurchaseOrders.CalculerMontantTotal | gestion-approvisionnements/src/main/java/com/example/gestion_approvisionnements/service/CommandeFournisseurService.java:155-159 | the loop total equals the sum of the subtotals, added from 0 |
| PurchaseOrders.CreateCommande | gestion-approvisionnements/src/main/java/com/example/gestion_approvisionnements/service/CommandeFournisseurService.java:55-69 | guard order: missing supplier, then no lines, then missing product; success exactly when all hold; the one new order has the requested supplier and status, lines matching the request, and a total equal to the sum of its subtotals |
| PurchaseOrders.UpdateStatut | gestion-approvisionnements/src/main/java/com/example/gestion_approvisionnements/service/CommandeFournisseurService.java:71-100 | unknown id is not found; the status becomes the new one whatever the old; off the edge into LIVREE nothing else changes; on it, one SORTIE per line is appended in line order, carrying product, quantity, price and the order id, and a failure is either a missing line product or an insufficient stock |
| PurchaseOrders.SortiesDeLivraison | gestion-approvisionnements/src/main/java/com/example/gestion_approvisionnements/service/CommandeFournisseurService.java:83-92 | delivery builds one SORTIE request per line, in line order, with the line's product, quantity and price and the order id |
| PurchaseOrders.RunDeSortiesDebite | gestion-approvisionnements/src/main/java/com/example/gestion_approvisionnements/service/MouvementStockService.java:79-85 | a successful run of issues lowers each product's stock by its total issued quantity and changes nothing else about it |
| PurchaseOrders.QuantiteSortieDeLivraison | gestion-approvisionnements/src/main/java/com/example/gestion_approvisionnements/service/CommandeFournisseurService.java:83-95 | the issues of a delivery take, per product, exactly the quantity ordered of it |
| PurchaseOrders.LivraisonDebiteLeStock | gestion-approvisionnements/src/main/java/com/example/gestion_approvisionnements/service/CommandeFournisseurService.java:80-97 | after delivery each product's stock is lower by its ordered quantity across all lines and no CUMP moved |
| PurchaseOrders.RunDeSortiesReussit | gestion-approvisionnements/src/main/java/com/example/gestion_approvisionnements/service/MouvementStockService.java:79-85 | issues of non-negative quantities on known products and orders all go through when each product holds at least the total issued of it |
| PurchaseOrders.LivraisonReussit | gestion-approvisionnements/src/main/java/com/example/gestion_approvisionnements/service/CommandeFournisseurService.java:81-96 | a successful delivery had every line's product on hand in the full quantity ordered of it; an order of non-negative quantities whose products are so covered is delivered |
| PurchaseOrders.LivraisonUneSeuleFois | gestion-approvisionnements/src/main/java/com/example/gestion_approvisionnements/service/CommandeFournisseurService.java:81 | setting LIVREE on an order already LIVREE records nothing and changes nothing |
| PurchaseOrders.ExempleCreation | gestion-approvisionnements/src/test/java/com/example/gestion_approvisionnements/service/CommandeFournisseurServiceTest.java:147-182 | 2 at 10.00 and 3 at 15.00 make a pending order of 65.00 |
| PurchaseOrders.DeleteCommande | gestion-approvisionnements/src/main/java/com/example/gestion_approvisionnements/service/CommandeFournisseurService.java:102-107 | unknown id exactly when not found; otherwise the order is removed and so is every occurrence of its ledger entries, other entries keeping their multiplicity; products and suppliers unchanged |
| PurchaseOrders.DeleteCommandeGardeLeReste | gestion-approvisionnements/src/main/java/com/example/gestion_approvisionnements/service/CommandeFournisseurService.java:102-107 | deleting an order no entry references leaves the ledger unchanged; the entries kept stay in their original order |
| Products.ValidateProduit | gestion-approvisionnements/src/main/java/com/example/gestion_approvisionnements/service/ProduitService.java:98-108 | passes exactly when no present field among price, stock and CUMP is negative; the first negative one, in that order, names the error |
| Products.ExemplesValidation | gestion-approvisionnements/src/test/java/com/example/gestion_approvisionnements/service/ProduitServiceTest.java:135-169 | a negative price, stock or CUMP is each refused with its own rule, and an all-null draft passes |
| Products.CreateProduit | gestion-approvisionnements/src/main/java/com/example/gestion_approvisionnements/service/ProduitService.java:39-44 | success exactly when the draft validates, else the validation error, whatever the draft; the new product copies the draft and nothing else changes |
| Products.AppliquerDraft | gestion-approvisionnements/src/main/java/com/example/gestion_approvisionnements/mapper/ProduitMapper.java:11-20 | an update overwrites a field only when the draft carries it (null is ignored); the name is always written |
| Products.DraftVideNeChangeRien | gestion-approvisionnements/src/main/java/com/example/gestion_approvisionnements/mapper/ProduitMapper.java:11-20 | an all-null draft changes nothing but the name |
| Products.UpdateProduit | gestion-approvisionnements/src/main/java/com/example/gestion_approvisionnements/service/ProduitService.java:46-55 | a missing product is not found whatever the draft; then the validation error; success replaces only that product by the merge, with the ledger untouched |
| Products.DeleteProduit | gestion-approvisionnements/src/main/java/com/example/gestion_approvisionnements/service/ProduitService.java:57-62 | unknown id exactly when not found; otherwise the product is removed and so is every occurrence of its ledger entries, other entries keeping their multiplicity |
| Products.DeleteProduitGardeLesAutresJournaux | gestion-approvisionnements/src/main/java/com/example/gestion_approvisionnements/service/ProduitService.java:57-62 | deleting a product leaves every other product's ledger exactly as it was, so its replay is unaffected |
| Products.AjusterStock | gestion-approvisionnements/src/main/java/com/example/gestion_approvisionnements/service/ProduitService.java:74-85 | not found first; refused exactly when stock + variation < 0; otherwise only that product's stock changes, to stock + variation, and no ledger entry is written |
| Products.ExempleAjusterStock | gestion-approvisionnements/src/test/java/com/example/gestion_approvisionnements/service/ProduitServiceTest.java:283-323 | 10 + 5 gives 15, and 10 - 11 is refused |
| Products.AjusterStockHorsJournal | gestion-approvisionnements/src/main/java/com/example/gestion_approvisionnements/service/ProduitService.java:83-84 | a non-zero adjustment changes the stock without a ledger entry: if replaying the product's whole ledger from an opening stock gave the stock before, it no longer gives the stock after, and the call's own entries (none) do not explain the change |
| Products.MettreAJourCoutMoyen | gestion-approvisionnements/src/main/java/com/example/gestion_approvisionnements/service/ProduitService.java:87-96 | a null or negative CUMP is refused before the lookup, then not found; success sets the CUMP to exactly that value and changes nothing else |
| Products.MettreAJourCoutMoyenDernierGagne | gestion-approvisionnements/src/main/java/com/example/gestion_approvisionnements/service/ProduitService.java:94-95 | two successive cost updates leave the same state as the second alone |
| Suppliers.EstVideConcatene | gestion-approvisionnements/src/main/java/com/example/gestion_approvisionnements/service/FournisseurService.java:70 | a string is blank, in the sense of isBlank, exactly when both of its halves are |
| Suppliers.ExemplesBlancs | gestion-approvisionnements/src/main/java/com/example/gestion_approvisionnements/service/FournisseurService.java:70 | isBlank holds of the empty string, ASCII white space and an em space, and not of a no-break space or a real identifier |
| Suppliers.ValidateIceAvailability | gestion-approvisionnements/src/main/java/com/example/gestion_approvisionnements/service/FournisseurService.java:69-83 | passes exactly when the ICE is null or blank, or every supplier holding it is the current one (so on creation, when nobody holds it); a refusal is the already-used error |
| Suppliers.ExemplesIce | gestion-approvisionnements/src/test/java/com/example/gestion_approvisionnements/service/FournisseurServiceTest.java:123-244 | a new ICE passes, a held ICE is refused on create, passes for its own holder on update and is refused for another, and a blank or null ICE passes |
| Suppliers.AppliquerDraft | gestion-approvisionnements/src/main/java/com/example/gestion_approvisionnements/mapper/FournisseurMapper.java:11-20 | an update overwrites a field only when the draft carries it; the company name is always written |
| Suppliers.VersEntite | gestion-approvisionnements/src/main/java/com/example/gestion_approvisionnements/mapper/FournisseurMapper.java:16 | creation copies every field of the draft, a null one included, onto the new supplier |
| Suppliers.CreationCommeMiseAJourComplete | gestion-approvisionnements/src/main/java/com/example/gestion_approvisionnements/mapper/FournisseurMapper.java:16-20 | for a draft with no null field, the entity toEntity creates equals the merge onto any existing supplier |
| Suppliers.CreateFournisseur | gestion-approvisionnements/src/main/java/com/example/gestion_approvisionnements/service/FournisseurService.java:36-42 | success exactly when the ICE is null, blank or held by nobody; the new supplier copies the draft and nothing else changes |
| Suppliers.UpdateFournisseur | gestion-approvisionnements/src/main/java/com/example/gestion_approvisionnements/service/FournisseurService.java:44-53 | a missing supplier is not found whatever the ICE; then refused exactly when another supplier holds the non-blank ICE; success replaces only that supplier by the merge |
| Suppliers.CreateFournisseurPreserveUnicite | gestion-approvisionnements/src/main/java/com/example/gestion_approvisionnements/entity/Fournisseur.java:43-44 | a successful creation keeps every non-blank ICE held by at most one supplier |
| Suppliers.UpdateFournisseurPreserveUnicite | gestion-approvisionnements/src/main/java/com/example/gestion_approvisionnements/entity/Fournisseur.java:43-44 | a successful update keeps every non-blank ICE held by at most one supplier |

## Left out

- HTTP controllers, the exception handler, DTO bean-validation annotations, and the list, filter and pagination queries: these are transport code and read-only queries.
- Dates and timestamps (`dateMouvement`, `dateCommande`, creation and update stamps). The stock and cost rules never read them. A movement keeps the date its request carries and takes the clock only when it has none, and the per-product ledger query sorts by that date. A back-dated entry is therefore listed before entries recorded earlier. The model keeps the ledger in the order entries were recorded, and its replay lemma is stated in that order, not in the order the query returns.
- Exception messages: only the exception kind is modelled.
- `StatutCommande` constants other than EN_ATTENTE, VALIDEE and LIVREE: the enum's source file is not part of this model. The services compare only against LIVREE, so any other constant would behave like a non-LIVREE status: a plain status copy that records no movement.
- 32-bit `Integer` overflow of stocks and quantities: the model uses unbounded integers.
- Sub-cent prices: every amount is assumed to be a whole number of cents, as the scale-2 columns store.
- The dead private helpers `calculerNouveauStock` and `mettreAJourCoutMoyen` of `MouvementStockService`: nothing calls them.
- The three-argument `ajusterStock` that `ProduitController` calls: `ProduitService` does not define it. The two-argument service method is modelled.
- `deleteFournisseur` and `getFournisseurByIce`: they are outside the supplier rule modelled here.
- Database constraint failures raised at flush time are not modelled. Examples: deleting a product that an order line still references, and a second blank ICE under the unique column.
- Ids in request bodies. No `toEntity` mapper ignores the `id` field: not `MouvementStockMapper`, `LigneCommandeMapper`, `CommandeFournisseurMapper`, `ProduitMapper` nor `FournisseurMapper`. A body id equal to an existing row makes `save` merge onto that row, so a create then overwrites it instead of inserting a new one. Under the IGNORE strategy, `updateEntityFromDTO` of `ProduitMapper` and `FournisseurMapper` also copies a non-null body id onto the loaded entity, which fails at flush when it differs from the path id. The model assumes every request body carries no id. Fresh ids are parameters, and apart from the id the mappers are treated as field copies.
- StockMovements.EnregistrerMouvement: "exactly one entry is appended" holds only for a request without an id. A request whose id names an existing entry overwrites that entry instead, which also breaks the replay that StockMovements.RunRejouable states. That case is not modelled.
- Products.CreateProduit: requires a draft that passes validation to carry a price and a stock. Validation accepts a null price or stock, and the mapper then copies the null onto a NOT NULL column, so the insert fails in the database, not in the service. That failure is not modelled. Drafts that validation refuses are modelled whatever they carry.
- PurchaseOrders.UpdateStatut: requires the order's lines to carry quantity and price, as their NOT NULL columns guarantee for any stored order.
- Suppliers.ValidateIceAvailability: requires that no two suppliers share a non-blank ICE. The unique column guarantees this, and the repository's single-result `findByIce` relies on it.
- PurchaseOrders.CreateCommande: each line's product id and quantity, and the order's status, are taken as present. The bean-validation annotations on the line fields never run, because the line list is not marked for cascaded validation, and the status field has none. A null product id fails in the repository lookup, a null quantity fails when the total adds a null subtotal, and a null status replaces the EN_ATTENTE default and fails at the NOT NULL insert. None of these failures is modelled.
- StockMovements.EnregistrerMouvement: the request's product id, type and quantity are not nullable. Nothing validates the request body. A null product id makes the repository lookup throw an illegal-argument exception, and unboxing a null type or quantity fails too, in each case before any rule runs. These failures are not modelled.
