/**
 * `parseMenuText`: the free-text menu an administrator pastes is cut into lines; a line
 * holding a section marker switches the current category, every other line is cleaned of
 * bullets and of an "A/C đặt cơm ..." notice and split on commas into dishes, and each
 * dish that survives its own cleaning is emitted under the current category.
 *
 * The program's regular expressions are written out as the character classes and
 * runs they match: every pattern here is anchored at the start and its repetitions are
 * followed by characters outside the repeated class, so each has exactly one match.
 */
module MenuText {
  import opened Types
  import Text
  import Seqs

  datatype ParsedItem = ParsedItem(name: string, category: MenuCategory)

  /** The three section headings. */
  const MarkerNew: string := "M\U{00D3}N M\U{1EDA}I"
  const MarkerDaily: string := "M\U{00D3}N M\U{1ED6}I NG\U{00C0}Y"
  const MarkerSpecial: string := "M\U{00D3}N \U{0110}\U{1EB6}C BI\U{1EC6}T"

  /** The heading a line carries, if any, checked in this order. */
  predicate IsMarkerLine(trimmed: string) {
    Text.Contains(trimmed, MarkerNew) || Text.Contains(trimmed, MarkerDaily)
    || Text.Contains(trimmed, MarkerSpecial)
  }

  function MarkerCategory(trimmed: string): MenuCategory
    requires IsMarkerLine(trimmed)
  {
    if Text.Contains(trimmed, MarkerNew) then New
    else if Text.Contains(trimmed, MarkerDaily) then Daily
    else Special
  }

  /** The character classes the patterns repeat. */
  datatype CharClass = Space | Digit | LineMark | Bullet | LetterOrSlash

  predicate InClass(c: char, k: CharClass) {
    match k
    case Space => Text.IsSpace(c)
    case Digit => Text.IsDigit(c)
    case LineMark => IsLineMark(c)
    case Bullet => IsBullet(c)
    case LetterOrSlash => IsLetterOrSlash(c)
  }

  /** Length of the longest prefix of `s` whose characters are all in class `k`. */
  function Span(s: string, k: CharClass): (n: nat)
    ensures n <= |s|
    ensures forall i :: 0 <= i < n ==> InClass(s[i], k)
    ensures n < |s| ==> !InClass(s[n], k)
  {
    if s == [] || !InClass(s[0], k) then 0 else 1 + Span(s[1..], k)
  }

  /** `s` without its longest prefix of class-`k` characters. */
  function DropSpan(s: string, k: CharClass): (r: string)
    ensures r == s[Span(s, k)..]
    ensures r == [] || !InClass(r[0], k)
  {
    s[Span(s, k)..]
  }

  /** The class `[☆▪︎•\-\s]` removed from the start of a line. */
  predicate IsLineMark(c: char) {
    c == '\U{2606}' || c == '\U{25AA}' || c == '\U{FE0E}' || c == '\U{2022}' || c == '-'
    || Text.IsSpace(c)
  }

  /** The class `[▪︎•\-]` removed from the start of a dish. */
  predicate IsBullet(c: char) {
    c == '\U{25AA}' || c == '\U{FE0E}' || c == '\U{2022}' || c == '-'
  }

  /** `[A-Za-z\/]` under the `i` flag, which only ASCII characters can match. */
  predicate IsLetterOrSlash(c: char) {
    'A' <= c <= 'Z' || 'a' <= c <= 'z' || c == '/'
  }

  /** What `.` refuses to match. */
  predicate IsLineTerminator(c: char) {
    c == '\n' || c == '\r' || c == '\U{2028}' || c == '\U{2029}'
  }

  /** `đặt` under the `i` flag. */
  predicate StartsWithDat(s: string) {
    |s| >= 3 && (s[0] == '\U{0111}' || s[0] == '\U{0110}')
    && (s[1] == '\U{1EB7}' || s[1] == '\U{1EB6}') && (s[2] == 't' || s[2] == 'T')
  }

  /** `cơm` under the `i` flag. */
  predicate StartsWithCom(s: string) {
    |s| >= 3 && (s[0] == 'c' || s[0] == 'C')
    && (s[1] == '\U{01A1}' || s[1] == '\U{01A0}') && (s[2] == 'm' || s[2] == 'M')
  }

  /**
   * The whole string matches `^[A-Za-z\/]+\s*đặt\s+cơm.*$` with the `i` flag: a run of
   * letters and slashes, optional white space, "đặt", white space, "cơm", and a tail
   * without line terminators.
   */
  predicate IsOrderNotice(s: string) {
    var k := Span(s, LetterOrSlash);
    var t := DropSpan(s[k..], Space);
    k >= 1 && StartsWithDat(t)
    && var u := t[3..];
    var l := Span(u, Space);
    l >= 1 && StartsWithCom(u[l..])
    && forall i :: 3 <= i < |u[l..]| ==> !IsLineTerminator(u[l..][i])
  }

  /** The three steps applied to a non-heading line before it is split into dishes. */
  function CleanLine(trimmed: string): (r: string)
    ensures Text.IsTrimmed(r)
  {
    var a := DropSpan(trimmed, LineMark);
    var b := if IsOrderNotice(a) then [] else a;
    Text.Trim(b)
  }

  lemma CleanLineIsInfix(trimmed: string)
    ensures Text.Contains(trimmed, CleanLine(trimmed))
  {
    var a := DropSpan(trimmed, LineMark);
    assert Text.OccursAt(trimmed, a, Span(trimmed, LineMark));
    var b := if IsOrderNotice(a) then [] else a;
    assert Text.OccursAt(a, b, 0);
    Text.TrimIsInfix(b);
    ContainsTrans(trimmed, a, b);
    ContainsTrans(trimmed, b, Text.Trim(b));
  }

  /** `split(",").map(trim).filter(d => d.length > 0)`. */
  function TrimNonEmpty(parts: seq<string>): (dishes: seq<string>)
    ensures forall d | d in dishes :: d != [] && Text.IsTrimmed(d)
  {
    if parts == [] then []
    else
      var rest := TrimNonEmpty(parts[..|parts| - 1]);
      var d := Text.Trim(parts[|parts| - 1]);
      if d == [] then rest else rest + [d]
  }

  lemma {:induction false} TrimNonEmptyIsInfix(parts: seq<string>, whole: string, c: char)
    requires forall p | p in parts :: c !in p && Text.Contains(whole, p)
    ensures forall d | d in TrimNonEmpty(parts) :: c !in d && Text.Contains(whole, d)
  {
    if parts != [] {
      var last := parts[|parts| - 1];
      TrimNonEmptyIsInfix(parts[..|parts| - 1], whole, c);
      Text.TrimIsInfix(last);
      ContainsTrans(whole, last, Text.Trim(last));
      NotInInfix(last, Text.Trim(last), c);
    }
  }

  function Dishes(clean: string): (dishes: seq<string>)
    ensures forall d | d in dishes :: d != [] && Text.IsTrimmed(d)
  {
    TrimNonEmpty(Text.Split(clean, ','))
  }

  lemma DishesAreInfixes(clean: string)
    ensures forall d | d in Dishes(clean) :: ',' !in d && Text.Contains(clean, d)
  {
    var parts := Text.Split(clean, ',');
    forall p | p in parts
      ensures ',' !in p && Text.Contains(clean, p)
    {
      var j :| 0 <= j < |parts| && parts[j] == p;
      SplitPartOccurs(clean, ',', j);
    }
    TrimNonEmptyIsInfix(parts, clean, ',');
  }

  /** `replace(/^\d+\.\s*\/, "")`: a leading "12. " numbering. */
  function DropNumbering(dish: string): string {
    var d := Span(dish, Digit);
    if d >= 1 && d < |dish| && dish[d] == '.' then DropSpan(dish[d + 1..], Space) else dish
  }

  /** `replace(/^[▪︎•\-]+\s*\/, "")`: leading bullets and the space after them. */
  function DropBullets(dish: string): string {
    var b := Span(dish, Bullet);
    if b >= 1 then DropSpan(dish[b..], Space) else dish
  }

  function CleanDish(dish: string): (r: string)
    ensures Text.IsTrimmed(r)
  {
    Text.Trim(DropBullets(DropNumbering(dish)))
  }

  lemma CleanDishIsInfix(dish: string)
    ensures Text.Contains(dish, CleanDish(dish))
  {
    var a := DropNumbering(dish);
    var b := DropBullets(a);
    DropNumberingIsInfix(dish);
    DropBulletsIsInfix(a);
    Text.TrimIsInfix(b);
    ContainsTrans(dish, a, b);
    ContainsTrans(dish, b, Text.Trim(b));
  }

  lemma DropNumberingIsInfix(dish: string)
    ensures Text.Contains(dish, DropNumbering(dish))
  {
    var j := NumberingEnd(dish);
    SuffixIsInfix(dish, j);
  }

  /** Where the dish starts once its numbering is dropped. */
  lemma NumberingEnd(dish: string) returns (j: nat)
    ensures j <= |dish| && DropNumbering(dish) == dish[j..]
  {
    var d := Span(dish, Digit);
    if d >= 1 && d < |dish| && dish[d] == '.' {
      j := SpanEnd(dish, d + 1, Space);
    } else {
      j := 0;
    }
  }

  lemma DropBulletsIsInfix(dish: string)
    ensures Text.Contains(dish, DropBullets(dish))
  {
    var j := BulletsEnd(dish);
    SuffixIsInfix(dish, j);
  }

  /** Where the dish starts once its bullets are dropped. */
  lemma BulletsEnd(dish: string) returns (j: nat)
    ensures j <= |dish| && DropBullets(dish) == dish[j..]
  {
    var b := Span(dish, Bullet);
    if b >= 1 {
      j := SpanEnd(dish, b, Space);
    } else {
      j := 0;
    }
  }

  /** Dropping a span from a suffix of `s` leaves a suffix of `s`. */
  lemma SpanEnd(s: string, i: nat, k: CharClass) returns (j: nat)
    requires i <= |s|
    ensures i <= j <= |s| && DropSpan(s[i..], k) == s[j..]
  {
    j := i + Span(s[i..], k);
    assert s[i..][Span(s[i..], k)..] == s[j..];
  }

  lemma SuffixIsInfix(s: string, i: nat)
    requires i <= |s|
    ensures Text.Contains(s, s[i..])
  {
    assert s[i..i + |s[i..]|] == s[i..];
    assert Text.OccursAt(s, s[i..], i);
  }

  /** `match(/^[A-Z]\/[A-Z]/)`, case-sensitive. */
  predicate StartsWithSlashCode(s: string) {
    |s| >= 3 && 'A' <= s[0] <= 'Z' && s[1] == '/' && 'A' <= s[2] <= 'Z'
  }

  predicate IsAccepted(clean: string) {
    Text.Utf16Length(clean) > 1 && !StartsWithSlashCode(clean)
  }

  /** Every dish of a line, cleaned. */
  function CleanAll(dishes: seq<string>): (cleaned: seq<string>)
    ensures |cleaned| == |dishes|
    ensures forall i :: 0 <= i < |dishes| ==> cleaned[i] == CleanDish(dishes[i])
  {
    seq(|dishes|, i requires 0 <= i < |dishes| => CleanDish(dishes[i]))
  }

  /** The accepted ones among cleaned dishes, in order, filed under `category`. */
  function Kept(cleaned: seq<string>, category: MenuCategory): (items: seq<ParsedItem>)
    ensures |items| <= |cleaned|
    ensures forall it | it in items :: it.category == category && it.name in cleaned && IsAccepted(it.name)
  {
    if cleaned == [] then []
    else
      var d := cleaned[|cleaned| - 1];
      Kept(cleaned[..|cleaned| - 1], category) + (if IsAccepted(d) then [ParsedItem(d, category)] else [])
  }

  datatype State = State(items: seq<ParsedItem>, category: MenuCategory)

  /** The items one line adds when `category` is current: none for a heading. */
  function LineItems(line: string, category: MenuCategory): seq<ParsedItem> {
    var trimmed := Text.Trim(line);
    if IsMarkerLine(trimmed) then []
    else
      var clean := CleanLine(trimmed);
      if clean == [] then [] else Kept(CleanAll(Dishes(clean)), category)
  }

  /** The category in force after one line: a heading's own, otherwise unchanged. */
  function NextCategory(line: string, category: MenuCategory): MenuCategory {
    var trimmed := Text.Trim(line);
    if IsMarkerLine(trimmed) then MarkerCategory(trimmed) else category
  }

  /** One pass of the line loop. */
  function Step(st: State, line: string): State {
    State(st.items + LineItems(line, st.category), NextCategory(line, st.category))
  }

  /** The loop's state after the given lines, starting from no items under "daily". */
  function Run(lines: seq<string>): State {
    if lines == [] then State([], Daily)
    else Step(Run(lines[..|lines| - 1]), lines[|lines| - 1])
  }

  function MenuItems(text: string): seq<ParsedItem> {
    Run(Text.Split(text, '\n')).items
  }

  /** `parseMenuText(text)`. */
  method ParseMenuText(text: string) returns (items: seq<ParsedItem>)
    ensures items == MenuItems(text)
  {
    var category;
    items, category := ParseLines(Text.Split(text, '\n'));
  }

  /** The line loop, from no items under "daily". */
  method ParseLines(lines: seq<string>) returns (items: seq<ParsedItem>, category: MenuCategory)
    ensures State(items, category) == Run(lines)
  {
    items, category := [], Daily;
    var i := 0;
    while i < |lines|
      invariant 0 <= i <= |lines|
      invariant Run(lines[..i]) == State(items, category)
    {
      items, category := ParseLine(lines[i], items, category);
      RunSnoc(lines, i);
      i := i + 1;
    }
    assert lines[..i] == lines;
  }

  lemma RunSnoc(lines: seq<string>, i: nat)
    requires i < |lines|
    ensures Run(lines[..i + 1]) == Step(Run(lines[..i]), lines[i])
  {
    assert lines[..i + 1][..i] == lines[..i];
  }

  /** The body of the line loop: a heading switches the category, any other line pushes its dishes. */
  method ParseLine(line: string, items0: seq<ParsedItem>, category0: MenuCategory)
    returns (items: seq<ParsedItem>, category: MenuCategory)
    ensures State(items, category) == Step(State(items0, category0), line)
  {
    items, category := items0, category0;
    var trimmed := Text.Trim(line);
    if Text.Contains(trimmed, MarkerNew) {
      category := New;
    } else if Text.Contains(trimmed, MarkerDaily) {
      category := Daily;
    } else if Text.Contains(trimmed, MarkerSpecial) {
      category := Special;
    } else {
      var clean := CleanLine(trimmed);
      if clean != [] {
        items := PushDishes(items, Dishes(clean), category);
        CleanLineItems(line, category);
      }
    }
    LineOutcome(line, category0);
  }

  /** The inner loop: clean each dish of a line and push the accepted ones. */
  method PushDishes(items0: seq<ParsedItem>, dishes: seq<string>, category: MenuCategory)
    returns (items: seq<ParsedItem>)
    ensures items == items0 + Kept(CleanAll(dishes), category)
  {
    ghost var cleaned := CleanAll(dishes);
    items := items0;
    var j := 0;
    while j < |dishes|
      invariant 0 <= j <= |dishes|
      invariant items == items0 + Kept(cleaned[..j], category)
    {
      var dish := CleanDish(dishes[j]);
      assert dish == cleaned[j];
      KeptSnoc(cleaned, j, category);
      if IsAccepted(dish) {
        Seqs.AppendAssoc(items0, Kept(cleaned[..j], category), [ParsedItem(dish, category)]);
        items := items + [ParsedItem(dish, category)];
      }
      j := j + 1;
    }
    assert cleaned[..j] == cleaned;
  }

  lemma KeptSnoc(cleaned: seq<string>, j: nat, category: MenuCategory)
    requires j < |cleaned|
    ensures Kept(cleaned[..j + 1], category) == Kept(cleaned[..j], category)
      + (if IsAccepted(cleaned[j]) then [ParsedItem(cleaned[j], category)] else [])
  {
    assert cleaned[..j + 1][..j] == cleaned[..j];
  }

  /** What one line does, branch by branch as the loop body tests it. */
  lemma LineOutcome(line: string, category: MenuCategory)
    ensures var trimmed := Text.Trim(line);
      (Text.Contains(trimmed, MarkerNew) ==> NextCategory(line, category) == New)
      && (!Text.Contains(trimmed, MarkerNew) && Text.Contains(trimmed, MarkerDaily) ==>
            NextCategory(line, category) == Daily)
      && ((!Text.Contains(trimmed, MarkerNew) && !Text.Contains(trimmed, MarkerDaily)
           && Text.Contains(trimmed, MarkerSpecial)) ==> NextCategory(line, category) == Special)
      && (IsMarkerLine(trimmed) ==> LineItems(line, category) == [])
      && (!IsMarkerLine(trimmed) ==> NextCategory(line, category) == category)
      && (!IsMarkerLine(trimmed) && CleanLine(trimmed) == [] ==> LineItems(line, category) == [])
  {
  }

  // ---------------------------------------------------------------------------------
  // What every emitted item looks like

  /** A cleaned dish that was kept: trimmed, accepted, comma-free and found in `whole`. */
  predicate IsKeptFragment(name: string, whole: string) {
    Text.IsTrimmed(name) && IsAccepted(name) && ',' !in name && Text.Contains(whole, name)
  }

  lemma DishItemsAreFragments(dishes: seq<string>, category: MenuCategory, whole: string)
    requires forall d | d in dishes :: ',' !in d && Text.Contains(whole, d)
    ensures forall it | it in Kept(CleanAll(dishes), category) :: IsKeptFragment(it.name, whole)
  {
    var cleaned := CleanAll(dishes);
    forall it | it in Kept(cleaned, category)
      ensures IsKeptFragment(it.name, whole)
    {
      var i :| 0 <= i < |cleaned| && cleaned[i] == it.name;
      CleanDishIsInfix(dishes[i]);
      ContainsTrans(whole, dishes[i], it.name);
      NotInInfix(dishes[i], it.name, ',');
    }
  }

  /**
   * A piece of a non-heading line that survived cleaning: trimmed, longer than one UTF-16
   * unit, not starting with an "X/Y" code, free of commas, and found in the line.
   */
  predicate IsItemOfLine(name: string, line: string) {
    Text.IsTrimmed(name) && IsAccepted(name) && ',' !in name
    && !IsMarkerLine(Text.Trim(line)) && Text.Contains(line, name)
  }

  lemma LineItemsAreFragments(line: string, category: MenuCategory)
    ensures forall it | it in LineItems(line, category) :: IsItemOfLine(it.name, line)
  {
    var trimmed := Text.Trim(line);
    if !IsMarkerLine(trimmed) && CleanLine(trimmed) != [] {
      var clean := CleanLine(trimmed);
      CleanLineItems(line, category);
      DishesAreInfixes(clean);
      DishItemsAreFragments(Dishes(clean), category, clean);
      CleanLineIsInfix(trimmed);
      Text.TrimIsInfix(line);
      ContainsTrans(line, trimmed, clean);
      forall it | it in LineItems(line, category)
        ensures IsItemOfLine(it.name, line)
      {
        ContainsTrans(line, clean, it.name);
      }
    }
  }

  lemma CleanLineItems(line: string, category: MenuCategory)
    requires !IsMarkerLine(Text.Trim(line)) && CleanLine(Text.Trim(line)) != []
    ensures LineItems(line, category) == Kept(CleanAll(Dishes(CleanLine(Text.Trim(line)))), category)
  {
  }

  /**
   * Every item `parseMenuText` emits is a trimmed, comma-free fragment of one of the
   * text's non-heading lines, longer than one UTF-16 unit and not starting with an "X/Y"
   * code.
   */
  lemma {:induction false} RunItemsAreFragments(lines: seq<string>)
    ensures forall it | it in Run(lines).items :: exists line | line in lines :: IsItemOfLine(it.name, line)
  {
    if lines != [] {
      var init := lines[..|lines| - 1];
      var last := lines[|lines| - 1];
      RunItemsAreFragments(init);
      LineItemsAreFragments(last, Run(init).category);
      RunLast(lines);
      forall it | it in Run(lines).items
        ensures exists line | line in lines :: IsItemOfLine(it.name, line)
      {
        if it in Run(init).items {
          var line :| line in init && IsItemOfLine(it.name, line);
          assert line in lines;
        } else {
          assert IsItemOfLine(it.name, last);
        }
      }
    }
  }

  /** The loop's state after a non-empty list of lines, one line at a time. */
  lemma RunLast(lines: seq<string>)
    requires lines != []
    ensures Run(lines).items == Run(lines[..|lines| - 1]).items
      + LineItems(lines[|lines| - 1], Run(lines[..|lines| - 1]).category)
    ensures Run(lines).category == NextCategory(lines[|lines| - 1], Run(lines[..|lines| - 1]).category)
  {
  }

  lemma MenuItemsAreFragments(text: string)
    ensures forall it | it in MenuItems(text) ::
      exists line | line in Text.Split(text, '\n') :: IsItemOfLine(it.name, line)
  {
    RunItemsAreFragments(Text.Split(text, '\n'));
  }

  /** A heading line emits nothing and sets the category for the lines after it. */
  lemma MarkerLineSwitchesCategory(lines: seq<string>, line: string)
    requires IsMarkerLine(Text.Trim(line))
    ensures Run(lines + [line]).items == Run(lines).items
    ensures Run(lines + [line]).category == MarkerCategory(Text.Trim(line))
  {
    assert (lines + [line])[..|lines|] == lines;
  }

  /** Items are only ever appended: the items of a text's first lines come first, in order. */
  lemma {:induction false} ItemsKeepOrder(lines: seq<string>, more: seq<string>)
    ensures Run(lines).items <= Run(lines + more).items
  {
    if more == [] {
      assert lines + more == lines;
    } else {
      var init := more[..|more| - 1];
      ItemsKeepOrder(lines, init);
      var all := lines + more;
      assert all[..|all| - 1] == lines + init;
      assert Run(all) == Step(Run(lines + init), all[|all| - 1]);
    }
  }

  /** Without any heading, every item is filed under "daily", the starting category. */
  lemma {:induction false} NoMarkersAllDaily(lines: seq<string>)
    requires forall line | line in lines :: !IsMarkerLine(Text.Trim(line))
    ensures Run(lines).category == Daily
    ensures forall it | it in Run(lines).items :: it.category == Daily
  {
    if lines != [] {
      NoMarkersAllDaily(lines[..|lines| - 1]);
    }
  }

  // ---------------------------------------------------------------------------------
  // Substrings

  lemma ContainsTrans(s: string, m: string, n: string)
    requires Text.Contains(s, m) && Text.Contains(m, n)
    ensures Text.Contains(s, n)
  {
    var i :| 0 <= i <= |s| && Text.OccursAt(s, m, i);
    var j :| 0 <= j <= |m| && Text.OccursAt(m, n, j);
    assert m == s[i..i + |m|];
    forall k | 0 <= k < |n|
      ensures s[i + j + k] == n[k]
    {
      assert n[k] == m[j + k];
    }
    assert s[i + j..i + j + |n|] == n;
    assert Text.OccursAt(s, n, i + j);
  }

  lemma NotInInfix(s: string, sub: string, c: char)
    requires Text.Contains(s, sub) && c !in s
    ensures c !in sub
  {
    var i :| 0 <= i <= |s| && Text.OccursAt(s, sub, i);
    assert sub == s[i..i + |sub|];
  }

  lemma {:induction false} SplitPartOccurs(s: string, sep: char, j: nat)
    requires j < |Text.Split(s, sep)|
    ensures Text.Contains(s, Text.Split(s, sep)[j])
    decreases |s|
  {
    var k := Text.IndexOf(s, sep);
    if k == |s| {
      assert Text.OccursAt(s, s, 0);
    } else if j == 0 {
      assert Text.OccursAt(s, s[..k], 0);
    } else {
      var rest := s[k + 1..];
      SplitPartOccurs(rest, sep, j - 1);
      assert Text.Split(s, sep)[j] == Text.Split(rest, sep)[j - 1];
      assert Text.OccursAt(s, rest, k + 1);
      ContainsTrans(s, rest, Text.Split(rest, sep)[j - 1]);
    }
  }
}
