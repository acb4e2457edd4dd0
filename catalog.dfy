/** The inventory catalog: creating and deleting products, the two
    lookups of the sales screen, the inventory search, and the net price
    derived from the gross price on the product form (App.tsx). */
module Catalog {
  import opened Types
  import opened Folds
  import opened Text
  import opened Rounding

  /** The category given to a product whose form left it blank. */
  const DefaultCategory: string := "Sin categoría"

  /** The product form (`newProduct`). Blank text is "", a blank number 0. */
  datatype ProductDraft = ProductDraft(
    name: string,
    barcode: string,
    category: string,
    supplierId: Option<int>,
    quantity: int,
    lastPurchase: int,
    saleNet: int,
    saleIva: int)

  datatype ProductError = MissingName | DuplicateBarcode

  function IdOf(p: Product): int { p.id }

  function BarcodeOf(p: Product): string { p.barcode }

  predicate UniqueIds(inv: seq<Product>)
  {
    Distinct(inv, IdOf)
  }

  predicate UniqueBarcodes(inv: seq<Product>)
  {
    Distinct(inv, BarcodeOf)
  }

  /** `inventory.find(p => p.barcode === code)`: the first product with
      that barcode. */
  function FindByBarcode(inv: seq<Product>, code: string): (r: Option<Product>)
    ensures r.None? <==> forall j :: 0 <= j < |inv| ==> inv[j].barcode != code
    ensures r.Some? ==> exists j :: (0 <= j < |inv| && inv[j] == r.value && r.value.barcode == code &&
                                     forall i :: 0 <= i < j ==> inv[i].barcode != code)
  {
    if inv == [] then None
    else if inv[0].barcode == code then Some(inv[0])
    else
      var r := FindByBarcode(inv[1..], code);
      assert forall j :: 1 <= j < |inv| ==> inv[j] == inv[1..][j - 1];
      assert r.Some? ==> exists j :: (1 <= j < |inv| && inv[j] == r.value && r.value.barcode == code &&
                                      forall i :: 0 <= i < j ==> inv[i].barcode != code) by {
        if r.Some? {
          var j :| 0 <= j < |inv[1..]| && inv[1..][j] == r.value && r.value.barcode == code &&
            forall i :: 0 <= i < j ==> inv[1..][i].barcode != code;
          assert forall i :: 0 <= i < j + 1 ==> inv[i].barcode != code by {
            forall i | 0 <= i < j + 1
              ensures inv[i].barcode != code
            {
              if i > 0 {
                assert inv[i] == inv[1..][i - 1];
              }
            }
          }
        }
      }
      r
  }

  /** `inventory.findIndex(p => p.id === id)`: the position of the first
      product with that id, or -1. */
  function FindIndex(inv: seq<Product>, id: int): (r: int)
    ensures -1 <= r < |inv|
    ensures r == -1 <==> forall j :: 0 <= j < |inv| ==> inv[j].id != id
    ensures r >= 0 ==> inv[r].id == id && forall j :: 0 <= j < r ==> inv[j].id != id
  {
    if inv == [] then -1
    else if inv[0].id == id then 0
    else
      var k := FindIndex(inv[1..], id);
      assert forall j :: 1 <= j < |inv| ==> inv[j] == inv[1..][j - 1];
      if k == -1 then -1 else k + 1
  }

  /** In a catalog with distinct ids, looking a product's id up finds
      that product. */
  lemma FindIndexOfMember(inv: seq<Product>, j: nat)
    requires UniqueIds(inv) && j < |inv|
    ensures FindIndex(inv, inv[j].id) == j
  {
    var r := FindIndex(inv, inv[j].id);
    assert IdOf(inv[r]) == IdOf(inv[j]);
  }

  /** The barcode generated when the form leaves it blank, "PROD-<stamp>". */
  function AutoBarcode(stamp: nat): string
  {
    "PROD-" + Decimal(stamp)
  }

  /** Distinct stamps generate distinct barcodes. */
  lemma AutoBarcodeInjective(a: nat, b: nat)
    requires AutoBarcode(a) == AutoBarcode(b)
    ensures a == b
  {
    assert Decimal(a) == AutoBarcode(a)[5..];
    assert Decimal(b) == AutoBarcode(b)[5..];
    DecimalInjective(a, b);
  }

  function ResolvedBarcode(draft: ProductDraft, stamp: nat): (b: string)
    ensures b != ""
  {
    if draft.barcode != "" then draft.barcode else AutoBarcode(stamp)
  }

  /** `supplierId || null`: a supplier id of 0 counts as none. */
  function SupplierOrNone(s: Option<int>): Option<int>
  {
    if s == Some(0) then None else s
  }

  /** handleAddProduct: validates the form against the catalog and builds
      the product to append. `id` and `stamp` stand for the two readings
      of the clock the source takes. */
  function NewProduct(inv: seq<Product>, draft: ProductDraft, id: int, stamp: nat): (r: Result<Product, ProductError>)
    ensures r == Failure(MissingName) <==> draft.name == ""
    ensures r == Failure(DuplicateBarcode) <==>
      draft.name != "" && FindByBarcode(inv, ResolvedBarcode(draft, stamp)).Some?
    ensures r.Success? ==>
      && r.value.id == id
      && r.value.name == draft.name && r.value.name != ""
      && r.value.barcode == ResolvedBarcode(draft, stamp)
      && (forall j :: 0 <= j < |inv| ==> inv[j].barcode != r.value.barcode)
      && r.value.category != ""
      && (draft.category != "" ==> r.value.category == draft.category)
      && (draft.category == "" ==> r.value.category == "Sin categoría")
      && (draft.supplierId == Some(0) ==> r.value.supplierId == None)
      && (draft.supplierId != Some(0) ==> r.value.supplierId == draft.supplierId)
      && r.value.quantity == draft.quantity
      && r.value.lastPurchase == draft.lastPurchase
      && r.value.saleNet == draft.saleNet
      && r.value.price == r.value.saleIva == draft.saleIva
  {
    if draft.name == "" then Failure(MissingName)
    else
      var barcode := ResolvedBarcode(draft, stamp);
      if FindByBarcode(inv, barcode).Some? then Failure(DuplicateBarcode)
      else
        Success(Product(
          id,
          draft.name,
          barcode,
          if draft.category != "" then draft.category else DefaultCategory,
          SupplierOrNone(draft.supplierId),
          draft.quantity,
          draft.lastPurchase,
          draft.saleNet,
          draft.saleIva,
          draft.saleIva))
  }

  /** Appending an accepted product with a fresh id keeps both ids and
      barcodes unique across the catalog. */
  lemma NewProductKeepsCatalogUnique(inv: seq<Product>, draft: ProductDraft, id: int, stamp: nat)
    requires UniqueIds(inv) && UniqueBarcodes(inv)
    requires forall j :: 0 <= j < |inv| ==> inv[j].id != id
    requires NewProduct(inv, draft, id, stamp).Success?
    ensures UniqueIds(inv + [NewProduct(inv, draft, id, stamp).value])
    ensures UniqueBarcodes(inv + [NewProduct(inv, draft, id, stamp).value])
  {
    var s := inv + [NewProduct(inv, draft, id, stamp).value];
    assert forall j :: 0 <= j < |inv| ==> s[j] == inv[j];
  }

  function NotWithId(id: int): Product -> bool
  {
    (p: Product) => p.id != id
  }

  /** handleDeleteProduct: `inventory.filter(p => p.id !== id)`. */
  function RemoveProduct(inv: seq<Product>, id: int): (r: seq<Product>)
    ensures forall k :: 0 <= k < |r| ==> r[k].id != id && r[k] in inv
    ensures forall k :: 0 <= k < |inv| && inv[k].id != id ==> inv[k] in r
  {
    Filter(inv, NotWithId(id))
  }

  lemma RemoveProductKeepsCatalogUnique(inv: seq<Product>, id: int)
    requires UniqueIds(inv) && UniqueBarcodes(inv)
    ensures UniqueIds(RemoveProduct(inv, id)) && UniqueBarcodes(RemoveProduct(inv, id))
  {
    FilterDistinct(inv, NotWithId(id), IdOf);
    FilterDistinct(inv, NotWithId(id), BarcodeOf);
  }

  /** The inventory table's filter: the lower-cased name contains the
      lower-cased term, or the barcode contains the term as typed. */
  predicate Matches(p: Product, term: string)
  {
    Contains(ToLower(p.name), ToLower(term)) || Contains(p.barcode, term)
  }

  function MatchesTerm(term: string): Product -> bool
  {
    (p: Product) => Matches(p, term)
  }

  function Search(inv: seq<Product>, term: string): (r: seq<Product>)
    ensures forall k :: 0 <= k < |r| ==> r[k] in inv && Matches(r[k], term)
    ensures forall k :: 0 <= k < |inv| && Matches(inv[k], term) ==> inv[k] in r
  {
    Filter(inv, MatchesTerm(term))
  }

  /** An empty search term lists the whole catalog, in order. */
  lemma {:induction false} SearchEmptyTermListsAll(inv: seq<Product>)
    ensures Search(inv, "") == inv
  {
    if inv != [] {
      ContainsEmpty(ToLower(inv[0].name));
      assert ToLower("") == "";
      SearchEmptyTermListsAll(inv[1..]);
      assert inv == [inv[0]] + inv[1..];
    }
  }

  /** Searching for a product's own name lists that product. */
  lemma SearchFindsByName(inv: seq<Product>, k: nat)
    requires k < |inv|
    ensures inv[k] in Search(inv, inv[k].name)
  {
    ContainsItself(ToLower(inv[k].name));
  }

  /** `Math.round(gross / 1.19)`, the net price the form derives from the
      gross price, computed exactly as round(100 * gross / 119), that is
      (200 * gross + 119) / 238. The quotient is never exactly halfway
      between two integers, so the result is strictly the nearest one. */
  function NetFromGross(gross: int): (net: int)
    ensures -119 < 2 * (100 * gross - 119 * net) < 119
  {
    RoundDiv(100 * gross, 119)
  }

  /** The form's onChange for the gross price: sets it and the net price
      derived from it. */
  function EditGross(draft: ProductDraft, gross: int): (d: ProductDraft)
    ensures d.saleIva == gross && -119 < 2 * (100 * gross - 119 * d.saleNet) < 119
    ensures d.(saleIva := draft.saleIva, saleNet := draft.saleNet) == draft
  {
    draft.(saleIva := gross, saleNet := NetFromGross(gross))
  }
}
