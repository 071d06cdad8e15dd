/**
 * Pantree.Core.Inventory.Perishable: an ingredient bought on some date, with the date it expires.
 * Dates are day numbers (`DateOnly.DayNumber`).
 */
module Perishables {
  import opened Wrappers
  import opened Primitives
  import opened Ingredients

  datatype Perishable = Perishable(id: Guid, ingredient: Ingredient, purchaseDate: int, expiryDate: int)

  /**
   * `new Perishable(ingredient, purchaseDate, shelfLife)`: the item expires `shelfLife.Days` days
   * after its purchase, i.e. on the last day whose whole distance from the purchase still fits in
   * the shelf life (towards zero for a negative shelf life).
   */
  function FromShelfLife(newId: Guid, ingredient: Ingredient, purchaseDate: int, shelfLife: TimeSpan): (p: Perishable)
    ensures p.id == newId && p.ingredient == ingredient && p.purchaseDate == purchaseDate
    ensures 0 <= shelfLife.ticks ==>
      0 <= (p.expiryDate - purchaseDate) * TICKS_PER_DAY <= shelfLife.ticks
        < (p.expiryDate - purchaseDate + 1) * TICKS_PER_DAY
    ensures shelfLife.ticks <= 0 ==>
      (p.expiryDate - purchaseDate - 1) * TICKS_PER_DAY < shelfLife.ticks
        <= (p.expiryDate - purchaseDate) * TICKS_PER_DAY <= 0
  {
    Perishable(newId, ingredient, purchaseDate, purchaseDate + Days(shelfLife))
  }

  /**
   * `new Perishable(ingredient, purchaseDate, expirationDate, extendedShelfLife)`: the item expires
   * on `expirationDate`, moved by the whole days of the extension when one is given.
   */
  function FromExpiration(
    newId: Guid, ingredient: Ingredient, purchaseDate: int, expirationDate: int, extendedShelfLife: Option<TimeSpan>)
    : (p: Perishable)
    ensures p.id == newId && p.ingredient == ingredient && p.purchaseDate == purchaseDate
    ensures extendedShelfLife.None? ==> p.expiryDate == expirationDate
    ensures extendedShelfLife.Some? ==> p.expiryDate == expirationDate + Days(extendedShelfLife.value)
  {
    var expiry := if extendedShelfLife.Some? then expirationDate + Days(extendedShelfLife.value) else expirationDate;
    Perishable(newId, ingredient, purchaseDate, expiry)
  }

  /** The record's equality: the id, the ingredient (under its own equality) and both dates. */
  predicate PerishableEquals(a: Perishable, b: Perishable) {
    && a.id == b.id
    && IngredientEquals(a.ingredient, b.ingredient)
    && a.purchaseDate == b.purchaseDate
    && a.expiryDate == b.expiryDate
  }

  // ---------------------------------------------------------------------------------------------
  // Properties

  /** Every item equals itself. */
  lemma PerishableEqualsReflexive(a: Perishable)
    ensures PerishableEquals(a, a)
  {
    IngredientEqualsReflexive(a.ingredient);
  }

  /** A shelf life of whole days expires that many days after the purchase. */
  lemma WholeDaysShelfLife(newId: Guid, ingredient: Ingredient, purchaseDate: int, days: int)
    ensures FromShelfLife(newId, ingredient, purchaseDate, FromDays(days)).expiryDate == purchaseDate + days
  {
    DaysOfWholeDays(days);
  }

  /** Fractions of a day are dropped: a half-day shelf life expires on the purchase date. */
  lemma HalfDayShelfLife(newId: Guid, ingredient: Ingredient, purchaseDate: int)
    ensures FromShelfLife(newId, ingredient, purchaseDate, TimeSpan(TICKS_PER_DAY / 2)).expiryDate == purchaseDate
  {
  }

  /**
   * A negative extension moves the expiry earlier, by its whole days counted towards zero:
   * minus a day and a half is one day earlier.
   */
  lemma NegativeExtension(newId: Guid, ingredient: Ingredient, purchaseDate: int, expirationDate: int)
    ensures FromExpiration(newId, ingredient, purchaseDate, expirationDate,
      Some(TimeSpan(-(TICKS_PER_DAY + TICKS_PER_DAY / 2)))).expiryDate == expirationDate - 1
  {
  }

  /**
   * The two constructors agree: a shelf life from the purchase date is the same as that date as
   * expiration date extended by the shelf life, or as the computed expiry without an extension.
   */
  lemma ConstructorsAgree(newId: Guid, ingredient: Ingredient, purchaseDate: int, shelfLife: TimeSpan)
    ensures FromExpiration(newId, ingredient, purchaseDate, purchaseDate, Some(shelfLife))
      == FromShelfLife(newId, ingredient, purchaseDate, shelfLife)
    ensures FromExpiration(newId, ingredient, purchaseDate, purchaseDate + Days(shelfLife), None)
      == FromShelfLife(newId, ingredient, purchaseDate, shelfLife)
  {
  }
}
