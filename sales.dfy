/** The fixed schema of the Beans & Pods sales table: two categorical columns
    (Channel, Region) and six product quantity columns. A missing cell (a NaN
    once the CSV is read) is `None`. */
module Sales {

  datatype Option<+T> = None | Some(value: T)

  datatype Channel = Store | Online

  datatype Region = South | North | Central

  datatype Product = Robusta | Arabica | Espresso | Lungo | Latte | Cappuccino

  /** One sales row. Its only identity is its position in the table. */
  datatype Record = Record(
    channel: Option<Channel>,
    region: Option<Region>,
    robusta: Option<nat>,
    arabica: Option<nat>,
    espresso: Option<nat>,
    lungo: Option<nat>,
    latte: Option<nat>,
    cappuccino: Option<nat>)

  /** The options offered by the two sidebar multiselects, in the order listed. */
  const ChannelOptions: seq<Channel> := [Store, Online]
  const RegionOptions: seq<Region> := [South, North, Central]

  /** Every channel and every region is offered by its multiselect. */
  lemma OptionsAreExhaustive()
    ensures forall c: Channel :: c in ChannelOptions
    ensures forall g: Region :: g in RegionOptions
  {
    forall c: Channel ensures c in ChannelOptions {
      match c
      case Store => assert ChannelOptions[0] == c;
      case Online => assert ChannelOptions[1] == c;
    }
    forall g: Region ensures g in RegionOptions {
      match g
      case South => assert RegionOptions[0] == g;
      case North => assert RegionOptions[1] == g;
      case Central => assert RegionOptions[2] == g;
    }
  }

  /** The product columns in their fixed column order. */
  const ProductColumns: seq<Product> := [Robusta, Arabica, Espresso, Lungo, Latte, Cappuccino]

  /** Position of a product in the column order. */
  function ProductIndex(p: Product): (i: nat)
    ensures i < |ProductColumns| && ProductColumns[i] == p
  {
    match p
    case Robusta => 0
    case Arabica => 1
    case Espresso => 2
    case Lungo => 3
    case Latte => 4
    case Cappuccino => 5
  }

  /** The cell of column `p` in row `r`. */
  function Quantity(r: Record, p: Product): Option<nat>
  {
    match p
    case Robusta => r.robusta
    case Arabica => r.arabica
    case Espresso => r.espresso
    case Lungo => r.lungo
    case Latte => r.latte
    case Cappuccino => r.cappuccino
  }

  /** What a cell contributes to a column sum: pandas skips missing values,
      so a missing cell adds nothing. */
  function Amount(r: Record, p: Product): nat
  {
    match Quantity(r, p)
    case None => 0
    case Some(q) => q
  }

  function ProductName(p: Product): string
  {
    match p
    case Robusta => "Robusta"
    case Arabica => "Arabica"
    case Espresso => "Espresso"
    case Lungo => "Lungo"
    case Latte => "Latte"
    case Cappuccino => "Cappuccino"
  }

  function RegionName(g: Region): string
  {
    match g
    case South => "South"
    case North => "North"
    case Central => "Central"
  }

  /** Ordering of Python strings: code point by code point, a proper prefix first. */
  predicate LexLess(a: string, b: string)
  {
    if a == [] then b != []
    else if b == [] then false
    else if a[0] != b[0] then a[0] < b[0]
    else LexLess(a[1..], b[1..])
  }
}
