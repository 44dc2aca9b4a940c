/**
 * The highlight colour: a name chosen on the command line, looked up in an
 * eight-entry list of names whose index selects the terminal colour at the
 * same index. A name that is not in the list makes the lookup fail.
 */
module Palette {
  import opened Wrappers

  /** The terminal library's eight foreground colours. */
  datatype Color = Black | Red | Green | Yellow | Blue | Magenta | Cyan | White

  /** The terminal colours, in the program's order. */
  const TermColors: seq<Color> := [Black, Red, Green, Yellow, Blue, Magenta, Cyan, White]

  /** The accepted colour names, in the same order. */
  const ColorNames: seq<string> := ["black", "red", "green", "yellow", "blue", "magenta", "cyan", "white"]

  /** The index of the first occurrence of `x` in `xs`, as an iterator's `position` finds it. */
  function Position<T(==)>(xs: seq<T>, x: T): (r: Option<nat>)
    ensures r.None? <==> x !in xs
    ensures r.Some? ==> r.value < |xs| && xs[r.value] == x
    ensures r.Some? ==> forall j :: 0 <= j < r.value ==> xs[j] != x
  {
    if xs == [] then None
    else if xs[0] == x then Some(0)
    else
      match Position(xs[1..], x)
      case None => None
      case Some(i) => Some(i + 1)
  }

  /** The palette index of a colour name; `None` is the program's panic on an unknown name. */
  function ColorIndex(name: string): (r: Option<nat>)
    ensures r.Some? <==> name in ColorNames
    ensures r.Some? ==> r.value < |TermColors| && ColorNames[r.value] == name
  {
    Position(ColorNames, name)
  }

  /** The terminal colour a name selects. */
  function ColorOf(name: string): (r: Option<Color>)
    ensures r.Some? <==> name in ColorNames
  {
    match ColorIndex(name)
    case None => None
    case Some(i) => Some(TermColors[i])
  }

  /** The name that selects a colour. */
  function NameOf(c: Color): string
  {
    match c
    case Black => "black"
    case Red => "red"
    case Green => "green"
    case Yellow => "yellow"
    case Blue => "blue"
    case Magenta => "magenta"
    case Cyan => "cyan"
    case White => "white"
  }

  /** The names are pairwise distinct, so every name has exactly one index. */
  lemma NamesDistinct()
    ensures forall i, j :: 0 <= i < j < |ColorNames| ==> ColorNames[i] != ColorNames[j]
  {
  }

  /** The lookup finds the index at which a listed name stands, for each of the eight. */
  lemma IndexOfListedName(i: nat)
    requires i < |ColorNames|
    ensures ColorIndex(ColorNames[i]) == Some(i)
  {
    NamesDistinct();
  }

  /** The palette index of a colour: where it stands in both lists. */
  function Ordinal(c: Color): (r: nat)
    ensures r < |TermColors| && TermColors[r] == c && ColorNames[r] == NameOf(c)
  {
    match c
    case Black => 0
    case Red => 1
    case Green => 2
    case Yellow => 3
    case Blue => 4
    case Magenta => 5
    case Cyan => 6
    case White => 7
  }

  /** Each colour's name selects that colour: the two lists are aligned index by index. */
  lemma ColorRoundTrip(c: Color)
    ensures ColorOf(NameOf(c)) == Some(c)
  {
    IndexOfListedName(Ordinal(c));
  }

  /** The two lists are aligned: the name at each index is the name of the colour at that index. */
  lemma NameAt(i: nat)
    requires i < |ColorNames|
    ensures ColorNames[i] == NameOf(TermColors[i])
  {
    if i < 4 {
      assert i == 0 || i == 1 || i == 2 || i == 3;
    } else {
      assert i == 4 || i == 5 || i == 6 || i == 7;
    }
  }

  /** A name outside the eight selects nothing, whatever its spelling (case included). */
  lemma UnknownNameFails(name: string)
    requires forall c: Color :: NameOf(c) != name
    ensures ColorOf(name) == None
  {
    forall i | 0 <= i < |ColorNames|
      ensures ColorNames[i] != name
    {
      NameAt(i);
    }
  }
}
