/**
 * The HUD text writer (src/gfx/gui.rs): a table from each printable
 * character to its glyph index, and a list of glyph instances that `write`
 * extends one line at a time.
 */
module Gui {
  import opened Vector

  /** `CHARACTERS`: the glyph atlas order, printable ASCII from '!' to '~' and then a space. */
  const Characters: string := "!\"#$%&'()*+,-./0123456789:;<=>?@ABCDEFGHIJKLMNOPQRSTUVWXYZ[\\]^_`abcdefghijklmnopqrstuvwxyz{|}~ "

  /** `UI_SPRITE_WIDTH`, the horizontal advance of one character. */
  const UiSpriteWidth: real := 6.0 / 14.0

  /** A glyph instance: where it is drawn and which atlas entry it shows (its rotation is always zero). */
  datatype Instance = Instance(position: Vec3, texIndex: nat)

  /** The map `Gui::new` builds by inserting `(s[i], i)` for i = 0, 1, ..., so a later occurrence wins. */
  function IndexMap(s: string): map<char, nat> {
    if s == [] then map[] else IndexMap(s[..|s| - 1])[s[|s| - 1] := |s| - 1]
  }

  /**
   * A character is a key exactly when it occurs in `s`, and it maps to the
   * position of its last occurrence; so the map is one-to-one.
   */
  lemma {:induction false} IndexMapExact(s: string, c: char)
    ensures c in IndexMap(s) <==> c in s
    ensures c in IndexMap(s) ==> IndexMap(s)[c] < |s| && s[IndexMap(s)[c]] == c
    ensures c in IndexMap(s) ==> forall j | IndexMap(s)[c] < j < |s| :: s[j] != c
  {
    if s != [] {
      var t := s[..|s| - 1];
      IndexMapExact(t, c);
      assert s == t + [s[|s| - 1]];
    }
  }

  /** Different characters get different glyph indices. */
  lemma IndexMapInjective(s: string, c: char, d: char)
    requires c in IndexMap(s) && d in IndexMap(s) && c != d
    ensures IndexMap(s)[c] != IndexMap(s)[d]
  {
    IndexMapExact(s, c);
    IndexMapExact(s, d);
  }

  /** The glyph `write` emits for character `i` of `text` on row `line`. */
  function GlyphAt(text: string, i: nat, line: real, characters: map<char, nat>): Instance
    requires i < |text| && text[i] in characters
  {
    Instance(Vec3(i as real * UiSpriteWidth, line, 0.0), characters[text[i]])
  }

  /** The glyphs `write` emits for the first `n` characters of `text`: one per known character, in order. */
  function Glyphs(text: string, n: nat, line: real, characters: map<char, nat>): (r: seq<Instance>)
    requires n <= |text|
    ensures |r| <= n
  {
    if n == 0 then []
    else
      Glyphs(text, n - 1, line, characters)
      + (if text[n - 1] in characters then [GlyphAt(text, n - 1, line, characters)] else [])
  }

  /**
   * A glyph is emitted exactly for each known character, at that
   * character's column in `text` (unknown characters are skipped but still
   * take their column), on row `line`, with the character's atlas index.
   */
  lemma {:induction false} GlyphsExact(text: string, n: nat, line: real, characters: map<char, nat>, g: Instance)
    requires n <= |text|
    ensures g in Glyphs(text, n, line, characters) <==>
      exists i :: 0 <= i < n && text[i] in characters && g == GlyphAt(text, i, line, characters)
  {
    if n > 0 {
      GlyphsExact(text, n - 1, line, characters, g);
    }
  }

  /** The glyphs are emitted left to right: their columns strictly increase. */
  lemma {:induction false} GlyphsOrdered(text: string, n: nat, line: real, characters: map<char, nat>, i: nat, j: nat)
    requires n <= |text| && i < j < |Glyphs(text, n, line, characters)|
    ensures Glyphs(text, n, line, characters)[i].position.x < Glyphs(text, n, line, characters)[j].position.x
  {
    var prev := Glyphs(text, n - 1, line, characters);
    if j < |prev| {
      GlyphsOrdered(text, n - 1, line, characters, i, j);
    } else {
      GlyphBefore(text, n - 1, line, characters, i);
    }
  }

  /** Every glyph emitted for the first `n` characters lies left of column `n`. */
  lemma {:induction false} GlyphBefore(text: string, n: nat, line: real, characters: map<char, nat>, i: nat)
    requires n <= |text| && i < |Glyphs(text, n, line, characters)|
    ensures Glyphs(text, n, line, characters)[i].position.x < n as real * UiSpriteWidth
  {
    var prev := Glyphs(text, n - 1, line, characters);
    if i < |prev| {
      GlyphBefore(text, n - 1, line, characters, i);
    }
  }

  /** With the atlas table, every emitted glyph index names an atlas entry showing that very character. */
  lemma GlyphIndexInAtlas(text: string, line: real, g: Instance)
    requires g in Glyphs(text, |text|, line, IndexMap(Characters))
    ensures g.texIndex < |Characters| && Characters[g.texIndex] in text
    ensures g.position.y == line
  {
    GlyphsExact(text, |text|, line, IndexMap(Characters), g);
    var i :| 0 <= i < |text| && text[i] in IndexMap(Characters) && g == GlyphAt(text, i, line, IndexMap(Characters));
    IndexMapExact(Characters, text[i]);
  }

  class Gui {
    var characters: map<char, nat>
    var glyphInstances: seq<Instance>
    var writeLine: real

    /** `Gui::new`: the atlas table, no glyphs, writing from line 0. */
    constructor ()
      ensures characters == IndexMap(Characters)
      ensures glyphInstances == [] && writeLine == 0.0
    {
      var table := map[];
      for i := 0 to |Characters|
        invariant table == IndexMap(Characters[..i])
      {
        assert Characters[..i + 1][..i] == Characters[..i];
        table := table[Characters[i] := i];
      }
      assert Characters[..|Characters|] == Characters;
      characters := table;
      glyphInstances := [];
      writeLine := 0.0;
    }

    /** `clear`: drops every glyph and goes back to line 0. */
    method Clear()
      modifies this
      ensures glyphInstances == [] && writeLine == 0.0 && characters == old(characters)
    {
      glyphInstances := [];
      writeLine := 0.0;
    }

    /**
     * `write`: returns the line it writes on, which is the line before the
     * call, moves to the next line, and appends the glyphs of `text`,
     * leaving earlier glyphs as they were.
     */
    method Write(text: string) returns (line: real)
      modifies this
      ensures line == old(writeLine) && writeLine == old(writeLine) + 1.0
      ensures glyphInstances == old(glyphInstances) + Glyphs(text, |text|, line, characters)
      ensures characters == old(characters)
    {
      line := writeLine;
      writeLine := writeLine + 1.0;
      for i := 0 to |text|
        invariant writeLine == old(writeLine) + 1.0 && characters == old(characters)
        invariant glyphInstances == old(glyphInstances) + Glyphs(text, i, line, characters)
      {
        if text[i] in characters {
          glyphInstances := glyphInstances + [Instance(Vec3(i as real * UiSpriteWidth, line, 0.0), characters[text[i]])];
        }
      }
    }
  }
}
