/** The Cart entity: a set of products whose total is recomputed after every
    change to the set. */
module Carts {
  import opened Common
  import opened Products

  /** The stored columns of a cart: its owner, the join table of product ids,
      the total and the last-update time. */
  datatype CartRow = CartRow(user: Id, products: set<Id>, totalAmount: Money, lastUpdated: Time)

  /** A member of the cart's product set. `HashSet` admits one null member,
      which `None` stands for. */
  type Item = Option<ProductEntity>

  /** What one member adds to the total: null members and null prices are
      skipped. */
  function ItemPrice(item: Item): Money {
    if item.Some? && item.value.1.price.Some? then item.value.1.price.value else 0.0
  }

  /** The total `calculateTotal` assigns for a product set (zero for a null set). */
  ghost function Total(products: Option<set<Item>>): Money {
    if products.None? then 0.0 else Sum(products.value, ItemPrice)
  }

  /** The product entities the persistence layer loads for a join table. */
  function Items(ids: set<Id>, catalog: map<Id, ProductRow>): (r: set<Item>)
    requires ids <= catalog.Keys
    ensures forall i :: i in r <==> i.Some? && i.value.0 in ids && i.value.1 == catalog[i.value.0]
  {
    set id | id in ids :: Some((id, catalog[id]))
  }

  /** The join table written back for a product set. */
  function ItemIds(items: set<Item>): (r: set<Id>)
    ensures forall id :: id in r <==> exists i :: i in items && i.Some? && i.value.0 == id
  {
    set i | i in items && i.Some? :: i.value.0
  }

  /** The total of a cart whose join table is `ids`, at current catalogue prices. */
  ghost function CatalogTotal(ids: set<Id>, catalog: map<Id, ProductRow>): Money
    requires ids <= catalog.Keys
  {
    Sum(Items(ids, catalog), ItemPrice)
  }

  /** Loading a join table and writing it back gives the same ids; adding or
      removing a loaded product adds or removes exactly its id. */
  lemma ItemsRoundTrip(ids: set<Id>, catalog: map<Id, ProductRow>, id: Id)
    requires ids <= catalog.Keys && id in catalog
    ensures ItemIds(Items(ids, catalog)) == ids
    ensures Items(ids, catalog) + {Some((id, catalog[id]))} == Items(ids + {id}, catalog)
    ensures Items(ids, catalog) - {Some((id, catalog[id]))} == Items(ids - {id}, catalog)
    ensures ItemIds(Items(ids, catalog) + {Some((id, catalog[id]))}) == ids + {id}
    ensures ItemIds(Items(ids, catalog) - {Some((id, catalog[id]))}) == ids - {id}
  {
    assert forall x :: x in ids ==> Some((x, catalog[x])) in Items(ids, catalog);
    assert forall x :: x in ids + {id} ==> Some((x, catalog[x])) in Items(ids + {id}, catalog);
    assert forall x :: x in ids - {id} ==> Some((x, catalog[x])) in Items(ids - {id}, catalog);
  }

  /** Putting a product that is not yet in the cart raises the total by its
      price; putting it in again changes nothing. Removing it lowers the total
      by its price. */
  lemma {:induction false} TotalAfterAdd(s: set<Item>, item: Item)
    ensures Total(Some(s + {item})) == if item in s then Total(Some(s)) else Total(Some(s)) + ItemPrice(item)
    ensures Total(Some(s + {item} + {item})) == Total(Some(s + {item}))
  {
    SumInsert(s, ItemPrice, item);
    assert s + {item} + {item} == s + {item};
  }

  lemma {:induction false} TotalAfterRemove(s: set<Item>, item: Item)
    ensures Total(Some(s - {item})) == if item in s then Total(Some(s)) - ItemPrice(item) else Total(Some(s))
  {
    SumRemove(s, ItemPrice, item);
  }

  class Cart {
    var user: Option<Id>
    var products: Option<set<Item>>
    var totalAmount: Money
    var lastUpdated: Time

    /** `totalAmount` is what `calculateTotal` would assign now. */
    ghost predicate TotalIsCurrent()
      reads this
    {
      totalAmount == Total(products)
    }

    /** `new Cart()`: no owner yet, an empty set, total zero. */
    constructor (now: Time)
      ensures user == None && products == Some({}) && totalAmount == 0.0 && lastUpdated == now
      ensures TotalIsCurrent()
    {
      user := None;
      products := Some({});
      totalAmount := 0.0;
      lastUpdated := now;
    }

    /** The entity as loaded from its row: the stored total is taken as is,
        not recomputed against current prices. */
    constructor Load(row: CartRow, catalog: map<Id, ProductRow>)
      requires row.products <= catalog.Keys
      ensures user == Some(row.user) && products == Some(Items(row.products, catalog))
      ensures totalAmount == row.totalAmount && lastUpdated == row.lastUpdated
    {
      user := Some(row.user);
      products := Some(Items(row.products, catalog));
      totalAmount := row.totalAmount;
      lastUpdated := row.lastUpdated;
    }

    function Row(): CartRow
      reads this
      requires user.Some? && products.Some?
    {
      CartRow(user.value, ItemIds(products.value), totalAmount, lastUpdated)
    }

    method SetUser(u: Id)
      modifies this`user
      ensures user == Some(u)
    {
      user := Some(u);
    }

    method SetProducts(ps: Option<set<Item>>, now: Time)
      modifies this`products, this`lastUpdated, this`totalAmount
      ensures products == ps && lastUpdated == now
      ensures TotalIsCurrent()
    {
      products := ps;
      lastUpdated := now;
      CalculateTotal();
    }

    /** Set insertion: adding a member that is already there leaves the set as it was. */
    method AddProduct(item: Item, now: Time)
      requires products.Some?
      modifies this`products, this`lastUpdated, this`totalAmount
      ensures products == Some(old(products.value) + {item}) && lastUpdated == now
      ensures TotalIsCurrent()
    {
      products := Some(products.value + {item});
      lastUpdated := now;
      CalculateTotal();
    }

    method RemoveProduct(item: Item, now: Time)
      requires products.Some?
      modifies this`products, this`lastUpdated, this`totalAmount
      ensures products == Some(old(products.value) - {item}) && lastUpdated == now
      ensures TotalIsCurrent()
    {
      products := Some(products.value - {item});
      lastUpdated := now;
      CalculateTotal();
    }

    method ClearCart(now: Time)
      requires products.Some?
      modifies this`products, this`lastUpdated, this`totalAmount
      ensures products == Some({}) && totalAmount == 0.0 && lastUpdated == now
      ensures TotalIsCurrent()
    {
      products := Some({});
      totalAmount := 0.0;
      lastUpdated := now;
    }

    method CalculateTotal()
      modifies this`totalAmount
      ensures TotalIsCurrent()
    {
      if products.None? {
        totalAmount := 0.0;
        return;
      }
      totalAmount := SumOf(products.value, ItemPrice);
    }
  }
}
