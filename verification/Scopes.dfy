/** Scope strings: words separated by spaces. */
module Scopes {
  /** Split at spaces and drop empty pieces; `word` is the piece being read. */
  function WordsFrom(s: string, word: string): seq<string>
    decreases |s|
  {
    var done := if word == "" then [] else [word];
    if s == "" then done
    else if s[0] == ' ' then done + WordsFrom(s[1..], "")
    else WordsFrom(s[1..], word + [s[0]])
  }

  function Words(s: string): seq<string> { WordsFrom(s, "") }

  function Join(ws: seq<string>): string {
    if ws == [] then "" else if |ws| == 1 then ws[0] else ws[0] + " " + Join(ws[1..])
  }

  predicate IsWord(w: string) { w != "" && ' ' !in w }

  lemma {:induction false} WordsAreWords(s: string, word: string)
    requires ' ' !in word
    ensures forall w :: w in WordsFrom(s, word) ==> IsWord(w)
    decreases |s|
  {
    if s == "" {
    } else {
      if s[0] == ' ' {
        WordsAreWords(s[1..], "");
      } else {
        WordsAreWords(s[1..], word + [s[0]]);
      }
    }
  }

  /** Reading past a piece without spaces only extends the current word. */
  lemma {:induction false} ReadPiece(piece: string, rest: string, word: string)
    requires ' ' !in piece
    ensures WordsFrom(piece + rest, word) == WordsFrom(rest, word + piece)
    decreases |piece|
  {
    if piece == "" {
      assert piece + rest == rest && word + piece == word;
    } else {
      assert (piece + rest)[0] == piece[0] && (piece + rest)[1..] == piece[1..] + rest;
      assert word + piece == (word + [piece[0]]) + piece[1..];
      ReadPiece(piece[1..], rest, word + [piece[0]]);
    }
  }

  /** Joining words and splitting again gives the words back. */
  lemma {:induction false} JoinRoundTrip(ws: seq<string>)
    requires forall w :: w in ws ==> IsWord(w)
    ensures Words(Join(ws)) == ws
  {
    if ws == [] {
    } else if |ws| == 1 {
      assert IsWord(ws[0]);
      ReadPiece(ws[0], "", "");
      assert ws[0] + "" == ws[0] && "" + ws[0] == ws[0];
      assert ws == [ws[0]];
    } else {
      assert IsWord(ws[0]);
      var rest := Join(ws[1..]);
      JoinRoundTrip(ws[1..]);
      assert Join(ws) == ws[0] + (" " + rest);
      ReadPiece(ws[0], " " + rest, "");
      assert (" " + rest)[1..] == rest && "" + ws[0] == ws[0];
      assert ws == [ws[0]] + ws[1..];
    }
  }

  /** So a requested scope string and its normalised form name the same scopes. */
  lemma NormalisedScope(scope: string)
    ensures Words(Join(Words(scope))) == Words(scope)
  {
    WordsAreWords(scope, "");
    JoinRoundTrip(Words(scope));
  }
}
