/**
 * The product catalogue: normalising the data source's rows (`mapRow`), the
 * default selection applied at load and after an order, and the
 * quantity updates that the event handlers apply to the list.
 */
module Catalog {
  import opened Wrappers
  import opened PriceParser

  /** A row of the product table, each cell as the data source delivers it; id cells in their `String(...)` form. */
  datatype Row = Row(
    itemId: Option<string>,
    order: string,
    name: Option<string>,
    price: Cell,
    size: Option<string>,
    ppu: Option<string>,
    recommendedQuantity: Cell,
    imageUrl: Option<string>,
    category: Option<string>,
    offers: Option<string>,
    score: Cell)

  /** A normalised product; `quantity` is the quantity currently staged for it in the shopping views. */
  datatype Product = Product(
    id: string,
    name: Option<string>,
    price: real,
    weight: string,
    ppu: string,
    quantity: int,
    image: string,
    category: string,
    offers: string,
    order: string,
    score: real)

  /** Products scored at least this high belong to the quick shop. */
  const ScoreThreshold: real := 0.6

  /** `cell || ""` for a display text. */
  function OrEmpty(c: Option<string>): (r: string)
    ensures c.None? ==> r == ""
    ensures c.Some? ==> r == c.value
  {
    match c
    case None => ""
    case Some(s) => s
  }

  /** JavaScript truthiness of an id cell. */
  predicate Truthy(c: Option<string>)
  {
    c.Some? && c.value != ""
  }

  /** `Number(cell) || 1` as an integer count: `NaN` and 0 give 1, a fraction is rounded down. */
  function QuantityOf(c: Cell): (q: int)
    ensures ToNumber(c).None? || ToNumber(c) == Some(0.0) ==> q == 1
    ensures ToNumber(c).Some? && ToNumber(c).value != 0.0 ==> q as real <= ToNumber(c).value < q as real + 1.0
  {
    match ToNumber(c)
    case None => 1
    case Some(v) => if v == 0.0 then 1 else v.Floor
  }

  /** `Number(cell) || 0`. */
  function ScoreOf(c: Cell): (s: real)
    ensures ToNumber(c).None? ==> s == 0.0
    ensures ToNumber(c).Some? ==> s == ToNumber(c).value
  {
    OrZero(ToNumber(c))
  }

  /** `mapRow`: one row of the data source normalised into a product. */
  function MapRow(row: Row): (p: Product)
    ensures p.id == if Truthy(row.itemId) then row.itemId.value else row.order
    ensures p.price == ParsePrice(row.price)
    ensures ToNumber(row.recommendedQuantity).None? || ToNumber(row.recommendedQuantity) == Some(0.0) ==> p.quantity == 1
    ensures p.quantity == QuantityOf(row.recommendedQuantity) && p.score == ScoreOf(row.score)
    ensures p.weight == OrEmpty(row.size) && p.ppu == OrEmpty(row.ppu) && p.image == OrEmpty(row.imageUrl)
    ensures p.category == OrEmpty(row.category) && p.offers == OrEmpty(row.offers)
    ensures p.order == row.order && p.name == row.name
  {
    Product(
      id := if Truthy(row.itemId) then row.itemId.value else row.order,
      name := row.name,
      price := ParsePrice(row.price),
      weight := OrEmpty(row.size),
      ppu := OrEmpty(row.ppu),
      quantity := QuantityOf(row.recommendedQuantity),
      image := OrEmpty(row.imageUrl),
      category := OrEmpty(row.category),
      offers := OrEmpty(row.offers),
      order := row.order,
      score := ScoreOf(row.score))
  }

  /** The staged quantity a product gets at load and after an order: `quantity || 1` in the quick shop, otherwise 0. */
  function DefaultQuantity(p: Product): (q: int)
    ensures q == 0 <==> p.score < ScoreThreshold
    ensures p.score >= ScoreThreshold && p.quantity == 0 ==> q == 1
    ensures p.score >= ScoreThreshold && p.quantity != 0 ==> q == p.quantity
  {
    if p.score >= ScoreThreshold then (if p.quantity == 0 then 1 else p.quantity) else 0
  }

  /** Every product's staged quantity reset to its default. */
  function ApplyDefaults(items: seq<Product>): (r: seq<Product>)
    ensures |r| == |items|
    ensures forall i :: 0 <= i < |r| ==> r[i] == items[i].(quantity := r[i].quantity)
    ensures forall i :: 0 <= i < |r| ==> (r[i].quantity == 0 <==> items[i].score < ScoreThreshold)
    ensures forall i :: 0 <= i < |r| && items[i].score >= ScoreThreshold && items[i].quantity != 0 ==>
              r[i].quantity == items[i].quantity
    ensures forall i :: 0 <= i < |r| && items[i].score >= ScoreThreshold && items[i].quantity == 0 ==>
              r[i].quantity == 1
  {
    seq(|items|, i requires 0 <= i < |items| => items[i].(quantity := DefaultQuantity(items[i])))
  }

  /** The rows of a successful fetch, normalised and given their default selection. */
  function Load(rows: seq<Row>): (r: seq<Product>)
    ensures |r| == |rows|
    ensures forall i :: 0 <= i < |r| ==> r[i].id == MapRow(rows[i]).id && r[i].price == ParsePrice(rows[i].price)
    ensures forall i :: 0 <= i < |r| ==> r[i] == MapRow(rows[i]).(quantity := DefaultQuantity(MapRow(rows[i])))
    ensures forall i :: 0 <= i < |r| ==> r[i].score == ScoreOf(rows[i].score)
    ensures forall i :: 0 <= i < |r| ==> (r[i].quantity == 0 <==> r[i].score < ScoreThreshold)
    ensures forall i :: 0 <= i < |r| && r[i].score >= ScoreThreshold && QuantityOf(rows[i].recommendedQuantity) != 0 ==>
              r[i].quantity == QuantityOf(rows[i].recommendedQuantity)
  {
    ApplyDefaults(seq(|rows|, i requires 0 <= i < |rows| => MapRow(rows[i])))
  }

  /**
   * `prev.map(p => String(p.id) === key ? { ...p, quantity: q } : p)`: every product with the
   * id gets quantity `q`; every other product, the length and the order are unchanged.
   */
  function SetQuantity(items: seq<Product>, id: string, q: int): (r: seq<Product>)
    ensures |r| == |items|
    ensures forall i :: 0 <= i < |r| && items[i].id != id ==> r[i] == items[i]
    ensures forall i :: 0 <= i < |r| && items[i].id == id ==> r[i].quantity == q && r[i] == items[i].(quantity := q)
  {
    seq(|items|, i requires 0 <= i < |items| => if items[i].id == id then items[i].(quantity := q) else items[i])
  }

  /** What `addSingleToTrolley` does to the list: products with the id get quantity `max(q, 1)`. */
  function RaiseToOne(items: seq<Product>, id: string): (r: seq<Product>)
    ensures |r| == |items|
    ensures forall i :: 0 <= i < |r| && items[i].id != id ==> r[i] == items[i]
    ensures forall i :: 0 <= i < |r| && items[i].id == id ==>
              r[i] == items[i].(quantity := r[i].quantity) && r[i].quantity >= 1 && r[i].quantity >= items[i].quantity
              && (items[i].quantity >= 1 ==> r[i].quantity == items[i].quantity)
              && (items[i].quantity < 1 ==> r[i].quantity == 1)
  {
    seq(|items|, i requires 0 <= i < |items| =>
      if items[i].id == id then items[i].(quantity := if items[i].quantity > 1 then items[i].quantity else 1) else items[i])
  }

  /** The position of the first product with the id (`items.find`), if any. */
  function FirstIndex(items: seq<Product>, id: string): (r: Option<nat>)
    ensures r.None? ==> forall j :: 0 <= j < |items| ==> items[j].id != id
    ensures r.Some? ==> r.value < |items| && items[r.value].id == id
    ensures r.Some? ==> forall j :: 0 <= j < r.value ==> items[j].id != id
  {
    if items == [] then None
    else if items[0].id == id then Some(0)
    else match FirstIndex(items[1..], id)
      case None => None
      case Some(k) => Some(k + 1)
  }

  // ---------------------------------------------------------------------------
  // Properties

  /** Resetting to the defaults twice is the same as once. */
  lemma ApplyDefaultsIdempotent(items: seq<Product>)
    ensures ApplyDefaults(ApplyDefaults(items)) == ApplyDefaults(items)
  {
    var once := ApplyDefaults(items);
    var twice := ApplyDefaults(once);
    forall i | 0 <= i < |items|
      ensures twice[i] == once[i]
    {
      assert once[i].score == items[i].score;
    }
  }

  /** The last of two quantity updates of the same id wins. */
  lemma SetQuantityLastWins(items: seq<Product>, id: string, a: int, b: int)
    ensures SetQuantity(SetQuantity(items, id, a), id, b) == SetQuantity(items, id, b)
  {
    var r1 := SetQuantity(SetQuantity(items, id, a), id, b);
    var r2 := SetQuantity(items, id, b);
    forall i | 0 <= i < |items|
      ensures r1[i] == r2[i]
    {
    }
  }

  /** Updates of different ids commute. */
  lemma SetQuantityCommutes(items: seq<Product>, id1: string, a: int, id2: string, b: int)
    requires id1 != id2
    ensures SetQuantity(SetQuantity(items, id1, a), id2, b) == SetQuantity(SetQuantity(items, id2, b), id1, a)
  {
    var r1 := SetQuantity(SetQuantity(items, id1, a), id2, b);
    var r2 := SetQuantity(SetQuantity(items, id2, b), id1, a);
    forall i | 0 <= i < |items|
      ensures r1[i] == r2[i]
    {
    }
  }

  /** A text quantity such as "3" is taken as it stands, and a blank or unparsable one becomes 1. */
  lemma QuantityExamples()
    ensures QuantityOf(Text("3")) == 3
    ensures QuantityOf(Text("")) == 1
    ensures QuantityOf(Text("n/a")) == 1
    ensures QuantityOf(Absent) == 1
  {
    ToNumberInteger("3");
    assert NatOf("3") == 3;
    assert Trim("") == "";
    NotANumber("n/a");
  }

  /** A text that starts with neither a digit nor a point is not a number. */
  lemma NotANumber(t: string)
    requires t != [] && !IsSpace(t[0]) && !IsSpace(t[|t| - 1]) && !IsDigit(t[0]) && t[0] != '.'
    ensures ToNumber(Text(t)).None?
  {
    TrimNoSpace(t);
  }
}
