/**
 * The keyboard diagram: 52 white keys, each a border column `|` followed by
 * a two-column body `██`, drawn over rows 0..15 and closed by a last border
 * at column 156; and 36 black keys, one column `█` each, drawn over rows
 * 0..8 on top of the white keys: a lone one at column 3, then seven groups
 * of five (two, a gap, three) every 21 columns from column 9 on.
 */
module Layout {
  import opened Palette
  import opened Screen
  import Wrappers

  const WhiteRows: nat := 16
  const BlackRows: nat := 9
  const WhiteKeyCount: nat := 52
  const GroupCount: nat := 7
  /** The column of the keyboard's right-hand border. */
  const LastBorder: nat := 156

  /** What the white-key pass leaves at column `c` of its rows. */
  function WhiteBase(c: int): Glyph
  {
    if c % 3 == 0 then Glyph('|', Black, White) else Glyph('█', White, Black)
  }

  const BlackKey: Glyph := Glyph('█', Black, White)

  /** Offsets, from a group's first column, of the five black keys in a group. */
  predicate GroupOffset(d: int)
  {
    d == 0 || d == 3 || d == 9 || d == 12 || d == 15
  }

  /** Column `c` holds the lone black key or one of the first `n` groups. */
  predicate BlackBefore(c: int, n: nat)
  {
    c == 3 || (9 <= c < 9 + 21 * n && GroupOffset((c - 9) % 21))
  }

  /** Column `c` holds a black key. */
  predicate IsBlackColumn(c: int)
  {
    BlackBefore(c, GroupCount)
  }

  /** Adding group `x` adds exactly the five columns the program prints for it. */
  lemma GroupStep(x: nat)
    ensures forall c :: BlackBefore(c, x + 1) <==>
      BlackBefore(c, x) || c == x * 21 + 9 || c == x * 21 + 12 || c == x * 21 + 18 || c == x * 21 + 21 || c == x * 21 + 24
  {
    forall c
      ensures BlackBefore(c, x + 1) <==>
        BlackBefore(c, x) || c == x * 21 + 9 || c == x * 21 + 12 || c == x * 21 + 18 || c == x * 21 + 21 || c == x * 21 + 24
    {
      if 9 + 21 * x <= c < 9 + 21 * (x + 1) {
        var d := c - 9 - 21 * x;
        assert c - 9 == 21 * x + d;
        assert (c - 9) % 21 == d;
      }
    }
  }

  /** The white-key pass: rows 0..15, a border every third column from 0 and at 156, key bodies between. */
  method PrintWhiteKeys(t: Terminal)
    requires t.Valid()
    modifies t.back
    ensures forall c, r :: 0 <= c < t.width && 0 <= r < t.height ==>
      t.back[c, r] == if r < WhiteRows && c <= LastBorder then WhiteBase(c) else old(t.back[c, r])
  {
    for y := 0 to WhiteRows
      invariant forall c, r :: 0 <= c < t.width && 0 <= r < t.height ==>
        t.back[c, r] == if r < y && c <= LastBorder then WhiteBase(c) else old(t.back[c, r])
    {
      t.Print(LastBorder, y, Black, White, "|");
      for x := 0 to WhiteKeyCount
        invariant forall c, r :: 0 <= c < t.width && 0 <= r < t.height ==>
          t.back[c, r] ==
            if (r < y && c <= LastBorder) || (r == y && (c == LastBorder || c < x * 3)) then WhiteBase(c)
            else old(t.back[c, r])
      {
        var k := x * 3;
        t.Print(k, y, Black, White, "|");
        t.Print(k + 1, y, White, Black, "██");
      }
    }
  }

  /** The black-key pass: rows 0..8, one `█` at every black-key column. */
  method PrintBlackKeys(t: Terminal)
    requires t.Valid()
    modifies t.back
    ensures forall c, r :: 0 <= c < t.width && 0 <= r < t.height ==>
      t.back[c, r] == if r < BlackRows && IsBlackColumn(c) then BlackKey else old(t.back[c, r])
  {
    for y := 0 to BlackRows
      invariant forall c, r :: 0 <= c < t.width && 0 <= r < t.height ==>
        t.back[c, r] == if r < y && IsBlackColumn(c) then BlackKey else old(t.back[c, r])
    {
      t.Print(3, y, Black, White, "█");
      for x := 0 to GroupCount
        invariant forall c, r :: 0 <= c < t.width && 0 <= r < t.height ==>
          t.back[c, r] ==
            if (r < y && IsBlackColumn(c)) || (r == y && BlackBefore(c, x)) then BlackKey
            else old(t.back[c, r])
      {
        var g1k1 := x * 21 + 9;
        var g1k2 := g1k1 + 3;
        t.Print(g1k1, y, Black, White, "█");
        t.Print(g1k2, y, Black, White, "█");
        var g2k1 := g1k2 + 6;
        var g2k2 := g2k1 + 3;
        var g2k3 := g2k2 + 3;
        t.Print(g2k1, y, Black, White, "█");
        t.Print(g2k2, y, Black, White, "█");
        t.Print(g2k3, y, Black, White, "█");
        GroupStep(x);
      }
    }
  }

  /** The glyph the diagram puts at (c, r), if the diagram covers that cell: black keys lie over white ones. */
  function Keyboard(c: int, r: int): (g: Wrappers.Option<Glyph>)
    ensures g.Some? <==> 0 <= r < WhiteRows && 0 <= c <= LastBorder
  {
    if 0 <= r < BlackRows && IsBlackColumn(c) then
      BlackKeysOnBorders(c);
      Wrappers.Some(BlackKey)
    else if 0 <= r < WhiteRows && 0 <= c <= LastBorder then Wrappers.Some(WhiteBase(c))
    else Wrappers.None
  }

  /** Start-up drawing: the white keys, the black keys over them, then the screen is presented. */
  method ShowKeyboard(t: Terminal)
    requires t.Valid()
    modifies t.back, t.front
    ensures forall c, r :: 0 <= c < t.width && 0 <= r < t.height ==>
      && t.back[c, r] == (match Keyboard(c, r) case Some(g) => g case None => old(t.back[c, r]))
      && t.front[c, r] == t.back[c, r]
  {
    PrintWhiteKeys(t);
    PrintBlackKeys(t);
    t.Present();
  }

  // The key columns as lists

  /** The border columns: every third column below 156, and 156. */
  function BorderColumns(): seq<nat>
  {
    seq(WhiteKeyCount, x => 3 * x) + [LastBorder]
  }

  /** The first body column of each white key. */
  function WhiteKeyColumns(): seq<nat>
  {
    seq(WhiteKeyCount, x => 3 * x + 1)
  }

  /** The five columns of black-key group `x`, as the program computes them. */
  function Group(x: nat): seq<nat>
  {
    var g1k1 := x * 21 + 9;
    var g1k2 := g1k1 + 3;
    var g2k1 := g1k2 + 6;
    var g2k2 := g2k1 + 3;
    var g2k3 := g2k2 + 3;
    [g1k1, g1k2, g2k1, g2k2, g2k3]
  }

  /** The columns of the first `n` groups, group by group. */
  function Groups(n: nat): seq<nat>
  {
    if n == 0 then [] else Groups(n - 1) + Group(n - 1)
  }

  /** The black-key columns, left to right: the lone key at 3, then the seven groups. */
  function BlackKeyColumns(): seq<nat>
  {
    [3] + Groups(GroupCount)
  }

  predicate Increasing(s: seq<int>)
  {
    forall i, j :: 0 <= i < j < |s| ==> s[i] < s[j]
  }

  /** The first `n` groups are 5n columns, increasing, between 9 and 9 + 21n, and exactly the group columns `BlackBefore` admits. */
  lemma GroupsEnumerate(n: nat)
    ensures |Groups(n)| == 5 * n
    ensures Increasing(Groups(n))
    ensures forall i :: 0 <= i < |Groups(n)| ==> 9 <= Groups(n)[i] < 9 + 21 * n
    ensures forall c :: c in Groups(n) <==> c != 3 && BlackBefore(c, n)
  {
    GroupsIncreasing(n);
    GroupsMembers(n);
  }

  /** The first `n` groups are 5n increasing columns between 9 and 9 + 21n. */
  lemma {:induction false} GroupsIncreasing(n: nat)
    ensures |Groups(n)| == 5 * n
    ensures Increasing(Groups(n))
    ensures forall i :: 0 <= i < |Groups(n)| ==> 9 <= Groups(n)[i] < 9 + 21 * n
  {
    if n > 0 {
      var prev, g := Groups(n - 1), Group(n - 1);
      GroupsIncreasing(n - 1);
      var s := prev + g;
      assert Groups(n) == s;
      forall i | 0 <= i < |s|
        ensures 9 <= s[i] < 9 + 21 * n
      {
        if i >= |prev| {
          assert s[i] == g[i - |prev|];
        }
      }
      forall i, j | 0 <= i < j < |s|
        ensures s[i] < s[j]
      {
        if j >= |prev| {
          assert s[j] == g[j - |prev|];
          if i >= |prev| {
            assert s[i] == g[i - |prev|];
          }
        }
      }
    }
  }

  /** The columns of the first `n` groups are exactly the group columns `BlackBefore` admits. */
  lemma {:induction false} GroupsMembers(n: nat)
    ensures forall c :: c in Groups(n) <==> c != 3 && BlackBefore(c, n)
  {
    if n > 0 {
      var prev, g := Groups(n - 1), Group(n - 1);
      GroupsMembers(n - 1);
      GroupStep(n - 1);
      assert Groups(n) == prev + g;
      forall c
        ensures c in prev + g <==> c != 3 && BlackBefore(c, n)
      {
        assert c in prev + g <==> c in prev || c in g;
      }
    }
  }

  /** The 36 listed black-key columns are increasing and are exactly the columns the black-key pass paints. */
  lemma BlackColumnsEnumerate()
    ensures |BlackKeyColumns()| == 36
    ensures Increasing(BlackKeyColumns())
    ensures forall c :: IsBlackColumn(c) <==> c in BlackKeyColumns()
  {
    GroupsEnumerate(GroupCount);
    var s := BlackKeyColumns();
    forall i, j | 0 <= i < j < |s|
      ensures s[i] < s[j]
    {
      if i > 0 {
        assert s[i] == Groups(GroupCount)[i - 1];
      }
      assert s[j] == Groups(GroupCount)[j - 1];
    }
  }

  /** Every black key sits on a white-key border column: a multiple of 3 between 3 and 150. */
  lemma BlackKeysOnBorders(c: int)
    requires IsBlackColumn(c)
    ensures c % 3 == 0 && 3 <= c <= 150
    ensures WhiteBase(c).ch == '|'
  {
    if c != 3 {
      var q, d := (c - 9) / 21, (c - 9) % 21;
      assert c == 9 + 21 * q + d;
      assert 0 <= q < GroupCount;
    }
  }

  /** A strictly increasing list has as many distinct elements as entries. */
  lemma {:induction false} IncreasingCard(s: seq<int>)
    requires Increasing(s)
    ensures |set x | x in s| == |s|
  {
    if s != [] {
      var init := s[..|s| - 1];
      IncreasingCard(init);
      assert s == init + [s[|s| - 1]];
      assert (set x | x in s) == (set x | x in init) + {s[|s| - 1]};
      assert s[|s| - 1] !in init;
    }
  }

  /**
   * The diagram has 52 white and 36 black keys, 88 in all: the black-key pass
   * paints 36 distinct columns of the diagram's 157, and the white-key pass
   * 52 two-column bodies between 53 borders.
   */
  lemma KeyCounts()
    ensures |WhiteKeyColumns()| == 52 && |BorderColumns()| == 53
    ensures |set c | 0 <= c <= LastBorder && IsBlackColumn(c)| == 36
    ensures |WhiteKeyColumns()| + |BlackKeyColumns()| == 88
  {
    BlackColumnsEnumerate();
    IncreasingCard(BlackKeyColumns());
    var painted := set c | 0 <= c <= LastBorder && IsBlackColumn(c);
    forall c | c in BlackKeyColumns()
      ensures c in painted
    {
      BlackKeysOnBorders(c);
    }
    assert painted == set x | x in BlackKeyColumns();
  }

  /** Between 0 and 156 a column is a border exactly when it is listed as one, and otherwise belongs to the body of white key c / 3. */
  lemma WhiteColumnsPartition(c: int)
    requires 0 <= c <= LastBorder
    ensures WhiteBase(c).ch == '|' <==> c in BorderColumns()
    ensures c % 3 != 0 ==> c / 3 < WhiteKeyCount && WhiteKeyColumns()[c / 3] <= c <= WhiteKeyColumns()[c / 3] + 1
  {
    if c % 3 == 0 && c < LastBorder {
      assert BorderColumns()[c / 3] == c;
    }
  }
}
