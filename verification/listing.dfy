/**
  The text forms of an ingredient line: `{name} - {amount} {unit}`, as
  `IngredientInRecipe.__str__` renders it; the line of the hand-written
  shopping list (that text, a space, a newline); the line of the grouped
  shopping list (`- `, that text, a newline); and the two documents built
  from them. Each form comes with a reader that recovers the items, so
  that what a document says can be stated as what can be read back from it.
 */
module Listing {
  import opened Wrappers
  import opened Rows
  import Decimal
  import Text

  /** First line of the grouped shopping list ("List of products to buy:"). */
  const Header: string := "Список продуктов к покупке:\n"

  /** `{amount} {unit}` */
  function Quantity(amount: nat, unit: string): string {
    Decimal.NatToString(amount) + " " + unit
  }

  /** `{name} - {amount} {unit}` */
  function Entry(it: Item): string {
    it.name + " - " + Quantity(it.amount, it.unit)
  }

  /** A line of the hand-written list: the entry, a space, a newline. */
  function CartLine(it: Item): string {
    Entry(it) + " " + "\n"
  }

  /** A line of the grouped list: a dash, a space, the entry, a newline. */
  function ShoppingLine(it: Item): string {
    "- " + Entry(it) + "\n"
  }

  /** The hand-written list: its lines concatenated, no header. */
  function CartDocument(items: seq<Item>): string
    decreases |items|
  {
    if |items| == 0 then "" else CartLine(items[0]) + CartDocument(items[1..])
  }

  function ShoppingBody(items: seq<Item>): string
    decreases |items|
  {
    if |items| == 0 then "" else ShoppingLine(items[0]) + ShoppingBody(items[1..])
  }

  /** The grouped list: the header, then one line per item. */
  function ShoppingDocument(items: seq<Item>): string {
    Header + ShoppingBody(items)
  }

  /**
    The entry separator ` - ` occurs nowhere in `name + " "`: not inside the
    name, and not across its end (a name ending in ` -`). Then the first
    ` - ` of an entry is the one after the name.
   */
  predicate SeparatorFree(name: string) {
    forall j: nat :: j <= |name| ==> !Text.OccursAt(name + " ", " - ", j)
  }

  /**
    Names and units a reader can take apart again: the name is separator
    free, and neither holds a newline (the line terminator). A dash inside
    a name, as in `агар-агар`, is allowed.
   */
  predicate Readable(it: Item) {
    SeparatorFree(it.name) && '\n' !in it.name && '\n' !in it.unit
  }

  predicate AllReadable(items: seq<Item>) {
    forall i :: 0 <= i < |items| ==> Readable(items[i])
  }

  /**
    Reads `{amount} {unit}`: the amount is the canonical digit run at the
    start, the unit is everything after the space that follows it.
   */
  function ParseQuantity(s: string): Option<(nat, string)> {
    var k := Decimal.DigitRun(s);
    if k == 0 || k >= |s| || s[k] != ' ' || !Decimal.Canonical(s[..k]) then None
    else Some((Decimal.DigitsValue(s[..k]), s[k + 1..]))
  }

  /**
    Reads `{name} - {amount} {unit}`: the name runs up to the first ` - `,
    the quantity follows it.
   */
  function ParseEntry(s: string): Option<Item> {
    match Text.Find(s, " - ")
    case None => None
    case Some(i) =>
      match ParseQuantity(s[i + 3..])
      case None => None
      case Some(q) => Some(Item(s[..i], q.1, q.0))
  }

  /** A rendered amount followed by a space and a unit reads back as that amount and unit. */
  lemma ParseQuantityOfRendering(n: nat, unit: string)
    ensures ParseQuantity(Quantity(n, unit)) == Some((n, unit))
  {
    var d := Decimal.NatToString(n);
    var s := d + " " + unit;
    assert Decimal.DigitRun(s) == |d| by {
      assert s == d + (" " + unit);
      Decimal.DigitRunOfRendering(n, " " + unit);
    }
    assert s[..|d|] == d && s[|d| + 1..] == unit;
    Decimal.ValueOfNatToString(n);
  }

  /** Whatever reads as a quantity is exactly that quantity's rendering. */
  lemma RenderingOfParseQuantity(s: string)
    requires ParseQuantity(s).Some?
    ensures Quantity(ParseQuantity(s).value.0, ParseQuantity(s).value.1) == s
  {
    var k := Decimal.DigitRun(s);
    Decimal.NatToStringOfValue(s[..k]);
    assert s == s[..k] + " " + s[k + 1..];
  }

  /** A ` - ` before the end of the name lies inside `name + " "`. */
  lemma SeparatorInName(name: string, tail: string, j: nat)
    requires j < |name|
    requires Text.OccursAt(name + " - " + tail, " - ", j)
    ensures Text.OccursAt(name + " ", " - ", j)
  {
    var s := name + " - " + tail;
    assert s[|name|] == ' ' && s[j..j + 3][1] == s[j + 1];
    if j + 3 <= |name| + 1 {
      assert s[j..j + 3] == (name + " ")[j..j + 3];
    }
  }

  /** An entry whose name is separator free reads back as the item it renders. */
  lemma ParseEntryOfEntry(it: Item)
    requires SeparatorFree(it.name)
    ensures ParseEntry(Entry(it)) == Some(it)
  {
    var tail := Quantity(it.amount, it.unit);
    var s := it.name + " - " + tail;
    assert Entry(it) == s;
    var n := |it.name|;
    assert Text.Find(s, " - ") == Some(n) by {
      assert s[n..n + 3] == " - ";
      forall j: nat | j < n
        ensures !Text.OccursAt(s, " - ", j)
      {
        if Text.OccursAt(s, " - ", j) {
          SeparatorInName(it.name, tail, j);
        }
      }
      Text.FindFirst(s, " - ", n);
    }
    assert s[n + 3..] == tail && s[..n] == it.name;
    ParseQuantityOfRendering(it.amount, it.unit);
  }

  /** The text before a space that no earlier ` - ` precedes is separator free. */
  lemma SeparatorFreeBefore(s: string, i: nat)
    requires i < |s| && s[i] == ' '
    requires forall j: nat :: j < i ==> !Text.OccursAt(s, " - ", j)
    ensures SeparatorFree(s[..i])
  {
    assert s[..i] + " " == s[..i + 1];
    forall j: nat | j <= i
      ensures Text.OccursAt(s[..i] + " ", " - ", j) ==> j < i && Text.OccursAt(s, " - ", j)
    {
      if j + 3 <= i + 1 {
        assert s[..i + 1][j..j + 3] == s[j..j + 3];
      }
    }
  }

  /** Whatever reads as an item is exactly that item's entry, and its name is separator free. */
  lemma EntryOfParseEntry(s: string)
    requires ParseEntry(s).Some?
    ensures Entry(ParseEntry(s).value) == s
    ensures SeparatorFree(ParseEntry(s).value.name)
  {
    var i := Text.Find(s, " - ").value;
    var tail := s[i + 3..];
    var it := ParseEntry(s).value;
    assert it.name == s[..i] && tail == Quantity(it.amount, it.unit) by {
      RenderingOfParseQuantity(tail);
    }
    assert s == s[..i] + " - " + s[i + 3..] by {
      assert s[i..i + 3] == " - ";
    }
    assert s[i] == ' ' by {
      assert s[i..i + 3][0] == s[i];
    }
    SeparatorFreeBefore(s, i);
  }

  /**
    A name holding ` - ` makes the text ambiguous: two different items
    render the same entry, so no reader can recover both.
   */
  lemma SeparatorInNameIsAmbiguous()
    ensures Item("tea - 1 cup", "g", 5) != Item("tea", "cup - 5 g", 1)
    ensures Entry(Item("tea - 1 cup", "g", 5)) == Entry(Item("tea", "cup - 5 g", 1))
  {
    assert Decimal.NatToString(5) == "5";
    assert Decimal.NatToString(1) == "1";
  }

  /** A name with a dash but no ` - `, such as `agar-agar`, reads back. */
  lemma HyphenatedNameReadsBack()
    ensures ParseEntry(Entry(Item("agar-agar", "g", 5))) == Some(Item("agar-agar", "g", 5))
  {
    var name := "agar-agar";
    forall j: nat | j <= |name|
      ensures !Text.OccursAt(name + " ", " - ", j)
    {
      if j + 3 <= |name| + 1 {
        assert (name + " ")[j..j + 3][0] == (name + " ")[j];
        assert (name + " ")[j..j + 3][2] == (name + " ")[j + 2];
      }
    }
    ParseEntryOfEntry(Item(name, "g", 5));
  }

  /** An entry holds a newline only if its name or unit does. */
  lemma EntryHasNoNewline(it: Item)
    requires Readable(it)
    ensures '\n' !in Entry(it)
  {
    var d := Decimal.NatToString(it.amount);
    assert forall j :: 0 <= j < |d| ==> Decimal.IsDigit(d[j]);
  }

  /** Reads one line of the hand-written list: an entry followed by a space. */
  function ParseCartLine(l: string): Option<Item> {
    if |l| == 0 || l[|l| - 1] != ' ' then None else ParseEntry(l[..|l| - 1])
  }

  function ParseCartLines(ls: seq<string>): Option<seq<Item>>
    decreases |ls|
  {
    if |ls| == 0 then Some([])
    else
      match ParseCartLine(ls[0])
      case None => None
      case Some(it) =>
        match ParseCartLines(ls[1..])
        case None => None
        case Some(items) => Some([it] + items)
  }

  /** Reads a hand-written list back into its items. */
  function ParseCartDocument(s: string): Option<seq<Item>> {
    match Text.SplitLines(s)
    case None => None
    case Some(ls) => ParseCartLines(ls)
  }

  /** Reads one line of the grouped list: a dash, a space, then an entry. */
  function ParseShoppingLine(l: string): Option<Item> {
    if |l| < 2 || l[..2] != "- " then None else ParseEntry(l[2..])
  }

  function ParseShoppingLines(ls: seq<string>): Option<seq<Item>>
    decreases |ls|
  {
    if |ls| == 0 then Some([])
    else
      match ParseShoppingLine(ls[0])
      case None => None
      case Some(it) =>
        match ParseShoppingLines(ls[1..])
        case None => None
        case Some(items) => Some([it] + items)
  }

  /** Reads the lines after the header of a grouped list. */
  function ParseShoppingBody(s: string): Option<seq<Item>> {
    match Text.SplitLines(s)
    case None => None
    case Some(ls) => ParseShoppingLines(ls)
  }

  /** Reads a grouped list back into its items, after checking the header. */
  function ParseShoppingDocument(s: string): Option<seq<Item>> {
    if |s| < |Header| || s[..|Header|] != Header then None
    else ParseShoppingBody(s[|Header|..])
  }

  /** A line of the hand-written list holds no newline and reads back as its item. */
  lemma CartLineReadsBack(it: Item)
    requires Readable(it)
    ensures '\n' !in Entry(it) + " "
    ensures ParseCartLine(Entry(it) + " ") == Some(it)
  {
    EntryHasNoNewline(it);
    var line := Entry(it) + " ";
    assert line[..|line| - 1] == Entry(it);
    ParseEntryOfEntry(it);
  }

  /** A line of the grouped list holds no newline and reads back as its item. */
  lemma ShoppingLineReadsBack(it: Item)
    requires Readable(it)
    ensures '\n' !in "- " + Entry(it)
    ensures ParseShoppingLine("- " + Entry(it)) == Some(it)
  {
    EntryHasNoNewline(it);
    var line := "- " + Entry(it);
    assert line[..2] == "- " && line[2..] == Entry(it);
    ParseEntryOfEntry(it);
  }

  /** The first line of a non-empty hand-written list is split off whole. */
  lemma CartDocumentSplits(items: seq<Item>)
    requires |items| > 0 && Readable(items[0])
    ensures Text.SplitLines(CartDocument(items)) ==
      match Text.SplitLines(CartDocument(items[1..]))
      case None => None
      case Some(ls) => Some([Entry(items[0]) + " "] + ls)
  {
    var line := Entry(items[0]) + " ";
    CartLineReadsBack(items[0]);
    Text.SplitLinesCons(line, CartDocument(items[1..]));
    assert CartDocument(items) == line + "\n" + CartDocument(items[1..]);
  }

  /** A readable first item in front of a list that reads back gives a list that reads back. */
  lemma CartDocumentStep(items: seq<Item>)
    requires |items| > 0 && Readable(items[0])
    requires ParseCartDocument(CartDocument(items[1..])) == Some(items[1..])
    ensures ParseCartDocument(CartDocument(items)) == Some(items)
  {
    var it := items[0];
    var line := Entry(it) + " ";
    var ls := Text.SplitLines(CartDocument(items[1..])).value;
    CartDocumentSplits(items);
    CartLineReadsBack(it);
    assert ([line] + ls)[0] == line && ([line] + ls)[1..] == ls;
    assert ParseCartLines([line] + ls) == Some([it] + items[1..]);
    assert items == [it] + items[1..];
  }

  /** The hand-written list reads back as exactly its items, one line each, in order. */
  lemma {:induction false} CartDocumentRoundTrip(items: seq<Item>)
    requires AllReadable(items)
    ensures ParseCartDocument(CartDocument(items)) == Some(items)
    decreases |items|
  {
    if |items| > 0 {
      assert AllReadable(items[1..]) by {
        assert forall i :: 0 <= i < |items| - 1 ==> items[1..][i] == items[i + 1];
      }
      CartDocumentRoundTrip(items[1..]);
      CartDocumentStep(items);
    }
  }

  /** The first line of a non-empty grouped list body is split off whole. */
  lemma ShoppingBodySplits(items: seq<Item>)
    requires |items| > 0 && Readable(items[0])
    ensures Text.SplitLines(ShoppingBody(items)) ==
      match Text.SplitLines(ShoppingBody(items[1..]))
      case None => None
      case Some(ls) => Some(["- " + Entry(items[0])] + ls)
  {
    var line := "- " + Entry(items[0]);
    ShoppingLineReadsBack(items[0]);
    Text.SplitLinesCons(line, ShoppingBody(items[1..]));
    assert ShoppingBody(items) == line + "\n" + ShoppingBody(items[1..]);
  }

  /** A readable first item in front of a body that reads back gives a body that reads back. */
  lemma ShoppingBodyStep(items: seq<Item>)
    requires |items| > 0 && Readable(items[0])
    requires ParseShoppingBody(ShoppingBody(items[1..])) == Some(items[1..])
    ensures ParseShoppingBody(ShoppingBody(items)) == Some(items)
  {
    var it := items[0];
    var line := "- " + Entry(it);
    var ls := Text.SplitLines(ShoppingBody(items[1..])).value;
    ShoppingBodySplits(items);
    ShoppingLineReadsBack(it);
    assert ([line] + ls)[0] == line && ([line] + ls)[1..] == ls;
    assert ParseShoppingLines([line] + ls) == Some([it] + items[1..]);
    assert items == [it] + items[1..];
  }

  /** The body of the grouped list splits into lines that read back as exactly its items. */
  lemma {:induction false} ShoppingBodyRoundTrip(items: seq<Item>)
    requires AllReadable(items)
    ensures ParseShoppingBody(ShoppingBody(items)) == Some(items)
    decreases |items|
  {
    if |items| > 0 {
      assert AllReadable(items[1..]) by {
        assert forall i :: 0 <= i < |items| - 1 ==> items[1..][i] == items[i + 1];
      }
      ShoppingBodyRoundTrip(items[1..]);
      ShoppingBodyStep(items);
    }
  }

  /** The grouped list reads back as the header and exactly its items, one line each, in order. */
  lemma ShoppingDocumentRoundTrip(items: seq<Item>)
    requires AllReadable(items)
    ensures ParseShoppingDocument(ShoppingDocument(items)) == Some(items)
  {
    var s := ShoppingDocument(items);
    assert s[..|Header|] == Header;
    assert s[|Header|..] == ShoppingBody(items);
    ShoppingBodyRoundTrip(items);
  }
}
