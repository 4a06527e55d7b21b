/**
 * The single-line text editor of the overlays. It edits a UTF-8 byte buffer under a cursor counted in
 * characters; every key does to the buffer what the same key does to a text with a gap at the cursor.
 * A cursor that starts beyond the text is followed too: it is what byte-length seeding produces, and
 * enough backspaces then remove a character from an empty string.
 */
module TextFields {
  import opened Wrappers
  import opened Bytes
  import opened Utf8

  datatype Key = Left | Right | Home | End | Backspace | Delete | Char(c: char) | Other

  // ---------------------------------------------------------------------- editing at a gap

  /** The text left and right of the cursor. */
  datatype Gap = Gap(before: string, after: string) {
    function Text(): string {
      before + after
    }
  }

  function PressAtGap(g: Gap, key: Key): Gap {
    match key
    case Left => if g.before == "" then g else Gap(g.before[..|g.before| - 1], [g.before[|g.before| - 1]] + g.after)
    case Right => if g.after == "" then g else Gap(g.before + [g.after[0]], g.after[1..])
    case Home => Gap("", g.Text())
    case End => Gap(g.Text(), "")
    case Backspace => if g.before == "" then g else Gap(g.before[..|g.before| - 1], g.after)
    case Delete => if g.after == "" then g else Gap(g.before, g.after[1..])
    case Char(c) => Gap(g.before + [c], g.after)
    case Other => g
  }

  function PressAllAtGap(g: Gap, keys: seq<Key>): Gap {
    if keys == [] then g
    else PressAtGap(PressAllAtGap(g, keys[..|keys| - 1]), keys[|keys| - 1])
  }

  /** Typing a text inserts it at the cursor; as many backspaces take it out again. */
  lemma {:induction false} TypeThenErase(g: Gap, text: string)
    ensures PressAllAtGap(g, seq(|text|, i requires 0 <= i < |text| => Char(text[i]))) == Gap(g.before + text, g.after)
    ensures PressAllAtGap(Gap(g.before + text, g.after), seq(|text|, _ => Backspace)) == g
  {
    var typed := seq(|text|, i requires 0 <= i < |text| => Char(text[i]));
    var erased := seq(|text|, _ => Backspace);
    if text == "" {
      assert g.before + text == g.before;
    } else {
      var n := |text| - 1;
      var init := text[..n];
      TypeThenErase(g, init);
      assert typed[..n] == seq(n, i requires 0 <= i < n => Char(init[i]));
      assert g.before + text == g.before + init + [text[n]];
      EraseFromEnd(g, text);
    }
  }

  /** How the other keys hang together: each move undoes the other, and deleting is backspacing from one further right. */
  lemma KeyLaws(g: Gap)
    ensures PressAtGap(g, Home).before == "" && PressAtGap(g, End).after == ""
    ensures forall key :: key in [Left, Right, Home, End, Other] ==> PressAtGap(g, key).Text() == g.Text()
    ensures g.before != "" ==> |PressAtGap(g, Left).before| == |g.before| - 1 && PressAtGap(PressAtGap(g, Left), Right) == g
    ensures g.after != "" ==> |PressAtGap(g, Right).before| == |g.before| + 1 && PressAtGap(PressAtGap(g, Right), Left) == g
    ensures g.before == "" ==> PressAtGap(g, Left) == g && PressAtGap(g, Backspace) == g
    ensures g.after == "" ==> PressAtGap(g, Right) == g && PressAtGap(g, Delete) == g
    ensures g.before != "" ==> PressAtGap(PressAtGap(g, Left), Delete) == PressAtGap(g, Backspace)
    ensures g.after != "" ==> PressAtGap(PressAtGap(g, Right), Backspace) == PressAtGap(g, Delete)
    ensures PressAtGap(g, Other) == g
  {
    if g.before != "" {
      var n := |g.before| - 1;
      assert g.before[..n] + [g.before[n]] == g.before;
      assert g.before[..n] + ([g.before[n]] + g.after) == g.Text();
      assert ([g.before[n]] + g.after)[1..] == g.after;
    }
    if g.after != "" {
      assert [g.after[0]] + g.after[1..] == g.after;
      assert (g.before + [g.after[0]]) + g.after[1..] == g.Text();
      assert (g.before + [g.after[0]])[..|g.before|] == g.before;
    }
    assert "" + g.Text() == g.Text() && g.Text() + "" == g.Text();
  }

  lemma {:induction false} EraseSome(g: Gap, text: string, k: nat)
    requires k <= |text|
    ensures PressAllAtGap(Gap(g.before + text, g.after), seq(k, _ => Backspace)) == Gap(g.before + text[..|text| - k], g.after)
  {
    var keys := seq(k, _ => Backspace);
    if k == 0 {
      assert text[..|text|] == text;
    } else {
      EraseSome(g, text, k - 1);
      assert keys[..k - 1] == seq(k - 1, _ => Backspace);
      var left := text[..|text| - (k - 1)];
      assert (g.before + left)[..|g.before + left| - 1] == g.before + text[..|text| - k];
    }
  }

  lemma EraseFromEnd(g: Gap, text: string)
    ensures PressAllAtGap(Gap(g.before + text, g.after), seq(|text|, _ => Backspace)) == g
  {
    EraseSome(g, text, |text|);
    assert g.before + text[..0] == g.before;
  }

  // ---------------------------------------------------------------------- characters in the buffer

  // ---------------------------------------------------------------------- editing at any cursor

  /** What the program keeps: the cursor may lie beyond the text. */
  datatype Editor = Editor(text: string, cursor: nat)

  predicate InRange(e: Editor) {
    e.cursor <= |e.text|
  }

  function AtGap(g: Gap): Editor {
    Editor(g.Text(), |g.before|)
  }

  function RemoveAt(text: string, at: nat): (r: string)
    requires at < |text|
    ensures |r| == |text| - 1
  {
    text[..at] + text[at + 1..]
  }

  /** One key. `None`: a character is removed where there is none, and the program panics. */
  function PressAt(e: Editor, key: Key): Option<Editor> {
    match key
    case Left => Some(Editor(e.text, if e.cursor > 0 then e.cursor - 1 else 0))
    case Right => Some(if e.cursor < |e.text| then Editor(e.text, e.cursor + 1) else e)
    case Home => Some(Editor(e.text, 0))
    case End => Some(Editor(e.text, |e.text|))
    case Backspace =>
      if e.cursor == 0 then Some(e)
      else
        var at := if e.cursor <= |e.text| then e.cursor - 1 else 0;
        if at < |e.text| then Some(Editor(RemoveAt(e.text, at), e.cursor - 1)) else None
    case Delete => Some(if e.cursor < |e.text| then Editor(RemoveAt(e.text, e.cursor), e.cursor) else e)
    case Char(c) =>
      var at := if e.cursor < |e.text| then e.cursor else |e.text|;
      Some(Editor(e.text[..at] + [c] + e.text[at..], e.cursor + 1))
    case Other => Some(e)
  }

  function PressAllAt(e: Editor, keys: seq<Key>): Option<Editor> {
    if keys == [] then Some(e)
    else
      match PressAllAt(e, keys[..|keys| - 1])
      case None => None
      case Some(before) => PressAt(before, keys[|keys| - 1])
  }

  /** Within the text a key never panics and edits at the gap. */
  lemma PressInRange(g: Gap, key: Key)
    ensures PressAt(AtGap(g), key) == Some(AtGap(PressAtGap(g, key)))
  {
    var text := g.Text();
    match key
    case Left => LeftInRange(g);
    case Right =>
      if g.after != "" {
        assert g.before + [g.after[0]] + g.after[1..] == text;
      }
    case Backspace => BackspaceInRange(g);
    case Delete => DeleteInRange(g);
    case Char(c) => CharInRange(g, c);
    case Home => assert "" + text == text;
    case End => assert text + "" == text;
    case Other =>
  }

  lemma LeftInRange(g: Gap)
    ensures PressAt(AtGap(g), Left) == Some(AtGap(PressAtGap(g, Left)))
  {
    if g.before != "" {
      var n := |g.before| - 1;
      assert g.before[..n] + ([g.before[n]] + g.after) == g.Text();
    }
  }

  lemma BackspaceInRange(g: Gap)
    ensures PressAt(AtGap(g), Backspace) == Some(AtGap(PressAtGap(g, Backspace)))
  {
    if g.before != "" {
      var n := |g.before| - 1;
      assert g.Text()[..n] == g.before[..n] && g.Text()[n + 1..] == g.after;
    }
  }

  lemma DeleteInRange(g: Gap)
    ensures PressAt(AtGap(g), Delete) == Some(AtGap(PressAtGap(g, Delete)))
  {
    if g.after != "" {
      assert g.Text()[..|g.before|] == g.before && g.Text()[|g.before| + 1..] == g.after[1..];
    }
  }

  lemma CharInRange(g: Gap, c: char)
    ensures PressAt(AtGap(g), Char(c)) == Some(AtGap(PressAtGap(g, Char(c))))
  {
    assert g.Text()[..|g.before|] == g.before && g.Text()[|g.before|..] == g.after;
  }

  lemma {:induction false} PressAllInRange(g: Gap, keys: seq<Key>)
    ensures PressAllAt(AtGap(g), keys) == Some(AtGap(PressAllAtGap(g, keys)))
  {
    if keys != [] {
      PressAllInRange(g, keys[..|keys| - 1]);
      PressInRange(PressAllAtGap(g, keys[..|keys| - 1]), keys[|keys| - 1]);
    }
  }

  // ---------------------------------------------------------------------- a cursor beyond the text

  predicate NoJump(keys: seq<Key>) {
    Home !in keys && End !in keys
  }

  function Lefts(keys: seq<Key>): nat {
    multiset(keys)[Left]
  }

  function Backspaces(keys: seq<Key>): nat {
    multiset(keys)[Backspace]
  }

  function Typed(keys: seq<Key>): nat {
    if keys == [] then 0 else Typed(keys[..|keys| - 1]) + if keys[|keys| - 1].Char? then 1 else 0
  }

  /** The keys leave a cursor beyond the text beyond it. */
  predicate StaysOut(e: Editor, keys: seq<Key>) {
    !InRange(e) && NoJump(keys) && |e.text| + Lefts(keys) < e.cursor
  }

  lemma Counts(keys: seq<Key>, key: Key)
    ensures Lefts(keys + [key]) == Lefts(keys) + if key == Left then 1 else 0
    ensures Backspaces(keys + [key]) == Backspaces(keys) + if key == Backspace then 1 else 0
    ensures Typed(keys + [key]) == Typed(keys) + if key.Char? then 1 else 0
    ensures NoJump(keys + [key]) <==> NoJump(keys) && key != Home && key != End
  {
    assert (keys + [key])[..|keys|] == keys;
  }

  /** Where the editor is after keys that did not panic. */
  lemma {:induction false} WhereItIs(e: Editor, keys: seq<Key>)
    requires PressAllAt(e, keys).Some?
    ensures var now := PressAllAt(e, keys).value;
            if StaysOut(e, keys) then
              |now.text| + Backspaces(keys) == |e.text| + Typed(keys) &&
              now.cursor + |e.text| + Lefts(keys) == e.cursor + |now.text|
            else InRange(now)
  {
    if keys != [] {
      var init, key := keys[..|keys| - 1], keys[|keys| - 1];
      assert keys == init + [key];
      WhereItIs(e, init);
      Counts(init, key);
    }
  }

  /** The `i`-th key is a backspace pressed with the cursor still beyond the text and nothing left to remove. */
  predicate Stray(e: Editor, keys: seq<Key>, i: nat)
    requires i < |keys|
  {
    keys[i] == Backspace && StaysOut(e, keys[..i]) && |e.text| + Typed(keys[..i]) == Backspaces(keys[..i])
  }

  /** A key sequence panics exactly when one of its backspaces is stray; the counts say which. */
  lemma {:induction false} PanicsIff(e: Editor, keys: seq<Key>)
    ensures PressAllAt(e, keys).None? <==> exists i :: 0 <= i < |keys| && Stray(e, keys, i)
  {
    if keys != [] {
      var n := |keys| - 1;
      var init := keys[..n];
      PanicsIff(e, init);
      forall i | 0 <= i < n ensures Stray(e, init, i) <==> Stray(e, keys, i) {
        assert init[..i] == keys[..i];
      }
      if PressAllAt(e, init).Some? {
        WhereItIs(e, init);
        assert PressAt(PressAllAt(e, init).value, keys[n]).None? <==> Stray(e, keys, n);
      } else {
        var i :| 0 <= i < |init| && Stray(e, init, i);
        assert Stray(e, keys, i);
      }
    }
  }

  lemma {:induction false} OnlyBackspaces(n: nat)
    ensures var keys := seq(n, _ => Backspace);
            Backspaces(keys) == n && Lefts(keys) == 0 && Typed(keys) == 0 && NoJump(keys)
  {
    if n > 0 {
      OnlyBackspaces(n - 1);
      var keys := seq(n - 1, _ => Backspace);
      Counts(keys, Backspace);
      assert keys + [Backspace] == seq(n, _ => Backspace);
    }
  }

  /**
   * A cursor seeded with the byte length of a saved text can be driven into a panic exactly when the
   * text is not ASCII: one backspace more than it has characters does it.
   */
  lemma SeededCursorPanicsIff(text: string)
    ensures (exists keys :: PressAllAt(Editor(text, |Encode(text)|), keys).None?) <==> !IsAscii(text)
  {
    var e := Editor(text, |Encode(text)|);
    EncodeLength(text);
    if IsAscii(text) {
      forall keys ensures PressAllAt(e, keys).Some? {
        PanicsIff(e, keys);
      }
    } else {
      var n := |text|;
      var keys := seq(n + 1, _ => Backspace);
      OnlyBackspaces(n);
      assert keys[..n] == seq(n, _ => Backspace);
      assert Stray(e, keys, n);
      PanicsIff(e, keys);
    }
  }

  // ---------------------------------------------------------------------- characters and bytes

  /** The character at index `n` occupies its own bytes of the buffer, right after those before it. */
  lemma CharAt(text: string, n: nat)
    requires n < |text|
    ensures Encode(text) == Encode(text[..n]) + EncodeChar(text[n]) + Encode(text[n + 1..])
    ensures Encode(text[..n + 1]) == Encode(text[..n]) + EncodeChar(text[n])
  {
    hide Encode, EncodeChar;
    EncodeOne(text[n]);
    assert text[..n + 1] == text[..n] + [text[n]];
    EncodeAppend(text[..n], [text[n]]);
    EncodeSplit(text, n + 1);
  }

  lemma EncodeSplit(text: string, n: nat)
    requires n <= |text|
    ensures Encode(text) == Encode(text[..n]) + Encode(text[n..])
  {
    assert text == text[..n] + text[n..];
    EncodeAppend(text[..n], text[n..]);
  }

  lemma LeadAt(text: string, n: nat)
    requires n < |text|
    ensures var at := |Encode(text[..n])|;
            && at < |Encode(text)| && at + Width(Encode(text)[at]) == |Encode(text[..n + 1])| <= |Encode(text)|
            && Encode(text)[..at] == Encode(text[..n])
            && Encode(text)[at + Width(Encode(text)[at])..] == Encode(text[n + 1..])
  {
    hide Encode, EncodeChar, Width;
    CharAt(text, n);
    WidthOfChar(text[n]);
    assert Encode(text)[|Encode(text[..n])|] == EncodeChar(text[n])[0];
  }

  lemma PrefixAt(text: string, n: nat)
    requires n <= |text|
    ensures |Encode(text[..n])| <= |Encode(text)|
    ensures Encode(text)[..|Encode(text[..n])|] == Encode(text[..n])
    ensures Encode(text)[|Encode(text[..n])|..] == Encode(text[n..])
  {
    EncodeSplit(text, n);
  }

  /** Cutting a character's bytes out of the buffer. */
  lemma CutOut(text: string, n: nat)
    requires n < |text|
    ensures Encode(RemoveAt(text, n)) == Encode(text[..n]) + Encode(text[n + 1..])
  {
    EncodeAppend(text[..n], text[n + 1..]);
  }

  /** Putting a character's bytes into the buffer. */
  lemma PutIn(text: string, n: nat, c: char)
    requires n <= |text|
    ensures Encode(text[..n] + [c] + text[n..]) == Encode(text[..n]) + EncodeChar(c) + Encode(text[n..])
  {
    EncodeOne(c);
    EncodeAppend(text[..n], [c]);
    EncodeAppend(text[..n] + [c], text[n..]);
  }

  class TextField {
    var bytes: seq<Byte>
    /** In characters. */
    var cursor: nat
    /** The characters the buffer encodes. */
    ghost var text: string

    ghost predicate Valid()
      reads this
    {
      bytes == Encode(text)
    }

    ghost function Contents(): Editor
      reads this
    {
      Editor(text, cursor)
    }

    /** A field pre-filled with a text, under whatever cursor the caller seeds. */
    constructor (initial: string, seed: nat)
      ensures Valid() && Contents() == Editor(initial, seed)
    {
      bytes := Encode(initial);
      cursor := seed;
      text := initial;
    }

    /** `chars().count()`. */
    method CharCount() returns (count: nat)
      requires Valid()
      ensures count == |text|
    {
      var at := 0;
      count := 0;
      assert text[..|text|] == text;
      while at < |bytes|
        invariant count <= |text| && at == |Encode(text[..count])| <= |bytes|
        decreases |bytes| - at
      {
        LeadAt(text, count);
        at := at + Width(bytes[at]);
        count := count + 1;
      }
      if count < |text| {
        LeadAt(text, count);
      }
    }

    /** `char_indices().nth(n)`: the byte index of character `n`, if there is one. */
    method ByteIndex(n: nat) returns (index: Option<nat>)
      requires Valid()
      ensures index == if n < |text| then Some(|Encode(text[..n])|) else None
    {
      var at, count := 0, 0;
      assert text[..|text|] == text;
      while at < |bytes| && count < n
        invariant count <= n && count <= |text| && at == |Encode(text[..count])| <= |bytes|
        decreases |bytes| - at
      {
        LeadAt(text, count);
        at := at + Width(bytes[at]);
        count := count + 1;
      }
      if count < |text| {
        LeadAt(text, count);
      }
      index := if at < |bytes| then Some(at) else None;
    }

    /** `String::remove` at the byte where character `n` starts, or at the end of the buffer. */
    method RemoveChar(index: nat, ghost n: nat) returns (ok: bool)
      requires Valid() && n <= |text| && index == |Encode(text[..n])|
      modifies `bytes, `text
      ensures Valid() && ok == (n < |old(text)|)
      ensures text == if ok then RemoveAt(old(text), n) else old(text)
    {
      assert text[..|text|] == text;
      ok := index < |bytes|;
      hide Encode, Width;
      if n < |text| {
        LeadAt(text, n);
        CutOut(text, n);
      }
      if ok {
        bytes := bytes[..index] + bytes[index + Width(bytes[index])..];
        text := RemoveAt(text, n);
      }
    }

    /** `String::insert` at the byte where character `n` starts, or at the end of the buffer. */
    method InsertChar(index: nat, c: char, ghost n: nat)
      requires Valid() && n <= |text| && index == |Encode(text[..n])|
      modifies `bytes, `text
      ensures Valid() && text == old(text[..n]) + [c] + old(text[n..])
    {
      PrefixAt(text, n);
      PutIn(text, n, c);
      bytes := bytes[..index] + EncodeChar(c) + bytes[index..];
      text := text[..n] + [c] + text[n..];
    }

    method EraseBefore() returns (ok: bool)
      requires Valid()
      modifies this
      ensures Valid() && ok == PressAt(old(Contents()), Backspace).Some?
      ensures ok ==> PressAt(old(Contents()), Backspace) == Some(Contents())
    {
      ok := true;
      if cursor > 0 {
        var index := ByteIndex(cursor - 1);
        assert text[..0] == "";
        ok := RemoveChar(index.GetOr(0), if cursor <= |text| then cursor - 1 else 0);
        cursor := cursor - 1;
      }
    }

    method EraseAfter(charCount: nat)
      requires Valid() && charCount == |text|
      modifies this
      ensures Valid() && PressAt(old(Contents()), Delete) == Some(Contents())
    {
      if cursor < charCount {
        var index := ByteIndex(cursor);
        var ok := RemoveChar(index.GetOr(|bytes|), cursor);
      }
    }

    method Insert(c: char)
      requires Valid()
      modifies this
      ensures Valid() && PressAt(old(Contents()), Char(c)) == Some(Contents())
    {
      var index := ByteIndex(cursor);
      assert text[..|text|] == text;
      InsertChar(index.GetOr(|bytes|), c, if cursor < |text| then cursor else |text|);
      cursor := cursor + 1;
    }

    /** One key press, under any cursor; `ok` is false where the program panics. */
    method Press(key: Key) returns (ok: bool)
      requires Valid()
      modifies this
      ensures Valid() && ok == PressAt(old(Contents()), key).Some?
      ensures ok ==> PressAt(old(Contents()), key) == Some(Contents())
    {
      ok := true;
      var charCount := CharCount();
      match key
      case Left =>
        cursor := if cursor > 0 then cursor - 1 else 0;
      case Right =>
        if cursor < charCount {
          cursor := cursor + 1;
        }
      case Home =>
        cursor := 0;
      case End =>
        cursor := charCount;
      case Backspace => ok := EraseBefore();
      case Delete => EraseAfter(charCount);
      case Char(c) => Insert(c);
      case Other =>
    }

    /**
     * Any key sequence: the buffer stays well-formed UTF-8, the result is the fold of the keys, and the
     * editor panics exactly on a stray backspace. A cursor that starts within the text stays there, and
     * the keys edit at the gap.
     */
    method PressAll(keys: seq<Key>) returns (ok: bool)
      requires Valid()
      modifies this
      ensures Valid() && WellFormed(bytes)
      ensures !ok <==> exists i :: 0 <= i < |keys| && Stray(old(Contents()), keys, i)
      ensures ok ==> PressAllAt(old(Contents()), keys) == Some(Contents())
      ensures old(InRange(Contents())) ==>
                ok && Contents() == AtGap(PressAllAtGap(Gap(old(text[..cursor]), old(text[cursor..])), keys)) && InRange(Contents())
    {
      ghost var start := Contents();
      ok := true;
      var i := 0;
      while i < |keys| && ok
        invariant 0 <= i <= |keys| && Valid()
        invariant PressAllAt(start, keys[..i]) == if ok then Some(Contents()) else None
      {
        ok := Press(keys[i]);
        assert keys[..i + 1][..i] == keys[..i];
        i := i + 1;
      }
      PanicsWithin(start, keys, i);
      assert keys[..|keys|] == keys;
      PanicsIff(start, keys);
      EncodedIsWellFormed(text);
      if InRange(start) {
        StartsAtGap(start, keys);
      }
    }
  }

  /** A sequence panics if its beginning does. */
  lemma {:induction false} PanicsWithin(e: Editor, keys: seq<Key>, i: nat)
    requires i <= |keys|
    ensures PressAllAt(e, keys[..i]).None? ==> PressAllAt(e, keys).None?
    decreases |keys| - i
  {
    if i < |keys| {
      assert keys[..i + 1][..i] == keys[..i];
      PanicsWithin(e, keys, i + 1);
    } else {
      assert keys[..i] == keys;
    }
  }

  lemma StartsAtGap(e: Editor, keys: seq<Key>)
    requires InRange(e)
    ensures var g := PressAllAtGap(Gap(e.text[..e.cursor], e.text[e.cursor..]), keys);
            PressAllAt(e, keys) == Some(AtGap(g)) && InRange(AtGap(g))
  {
    var g := Gap(e.text[..e.cursor], e.text[e.cursor..]);
    assert g.Text() == e.text;
    PressAllInRange(g, keys);
  }

  /**
   * A cursor seeded with the byte length of a saved text is a character position exactly when the text
   * is ASCII.
   */
  lemma ByteLengthIsACursorIff(text: string)
    ensures |Encode(text)| <= |text| <==> IsAscii(text)
  {
    EncodeLength(text);
  }
}
