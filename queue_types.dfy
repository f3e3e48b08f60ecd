/** The value types of the order queue: the dish enumeration, the order
    record and the 32-bit integers they are built from. */
module QueueTypes {

  datatype Option<T> = None | Some(value: T)

  /** C `int` on the platforms the program targets: 32-bit two's complement. */
  newtype int32 = x: int | -0x8000_0000 <= x < 0x8000_0000

  /** The five dishes, in declaration order (their C values are 0..4). */
  datatype Plat = Pizza | Burger | Sushi | Pates | Salade

  /** One past the last dish: the number of dishes, not a dish itself. */
  const PLAT_COUNT: int := 5

  const AllPlats: set<Plat> := {Pizza, Burger, Sushi, Pates, Salade}

  /** The integer value C gives each enumerator. */
  function PlatToInt(p: Plat): (n: int)
    ensures 0 <= n < PLAT_COUNT
  {
    match p
    case Pizza => 0
    case Burger => 1
    case Sushi => 2
    case Pates => 3
    case Salade => 4
  }

  /** The cast `(Plat)n`: the dish whose C value is `n`, if one of the five
      dishes has it. */
  function PlatOfInt(n: int): (r: Option<Plat>)
    ensures r.Some? <==> 0 <= n < PLAT_COUNT
    ensures r.Some? ==> PlatToInt(r.value) == n
  {
    if n == 0 then Some(Pizza)
    else if n == 1 then Some(Burger)
    else if n == 2 then Some(Sushi)
    else if n == 3 then Some(Pates)
    else if n == 4 then Some(Salade)
    else None
  }

  /** Every dish survives the trip through its integer value. */
  lemma PlatRoundTrip(p: Plat)
    ensures PlatOfInt(PlatToInt(p)) == Some(p)
  {
    match p
    case Pizza =>
    case Burger =>
    case Sushi =>
    case Pates =>
    case Salade =>
  }

  /** There are exactly PLAT_COUNT dishes, their values are distinct, and
      PLAT_COUNT itself is not a dish. */
  lemma PlatCountIsNumberOfDishes()
    ensures forall p: Plat :: p in AllPlats
    ensures |AllPlats| == PLAT_COUNT
    ensures forall p: Plat, q: Plat :: PlatToInt(p) == PlatToInt(q) ==> p == q
    ensures PlatOfInt(PLAT_COUNT) == None
  {
    forall p: Plat ensures p in AllPlats {
      match p
      case Pizza =>
      case Burger =>
      case Sushi =>
      case Pates =>
      case Salade =>
    }
    forall p: Plat, q: Plat | PlatToInt(p) == PlatToInt(q) ensures p == q {
      PlatRoundTrip(p);
      PlatRoundTrip(q);
    }
  }

  /** An order: its id, its dish and its preparation time in milliseconds.
      A datatype value, so it is copied into and out of the buffer. */
  datatype Commande = Commande(id: int32, plat: Plat, prepMs: int32)

  /** The all-zero bytes `calloc` leaves in a fresh slot. */
  const ZeroCommande: Commande := Commande(0, Pizza, 0)

  /** The id that marks a poison pill, the order that tells a cook to stop. */
  const POISON_ID: int32 := -1

  /** The poison pill the shutdown path enqueues: id -1, pizza, no preparation. */
  const Poison: Commande := Commande(POISON_ID, Pizza, 0)

  predicate IsPoison(c: Commande) {
    c.id == POISON_ID
  }
}
