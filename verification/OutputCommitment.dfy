/** Whitespace normalisation before hashing, and the commitment preimage. */
module OutputCommitment {
  /** The characters at which `str.split()` splits. */
  predicate IsSpace(c: char) {
    '\U{0009}' <= c <= '\U{000D}' || '\U{001C}' <= c <= '\U{0020}' || c == '\U{0085}' || c == '\U{00A0}' || c == '\U{1680}'
    || '\U{2000}' <= c <= '\U{200A}' || c == '\U{2028}' || c == '\U{2029}' || c == '\U{202F}' || c == '\U{205F}' || c == '\U{3000}'
  }

  /** These are the characters from tab to carriage return, the separators of ASCII, the space, and the Unicode spaces. */
  lemma SpacesAreExactly(c: char)
    ensures IsSpace(c) <==>
              || c in "\t\n\r " || c as int in {11, 12, 28, 29, 30, 31}
              || c as int in {133, 160, 5760, 8232, 8233, 8239, 8287, 12288} || 8192 <= c as int <= 8202
  {
    assert '\t' as int == 9 && '\n' as int == 10 && '\r' as int == 13 && ' ' as int == 32;
  }

  /** Splitting at runs of whitespace. */
  function Words(text: string): (words: seq<string>)
    ensures text != "" && !IsSpace(text[0]) ==> words != []
  {
    if text == "" then []
    else
      var rest := Words(text[1..]);
      if IsSpace(text[0]) then rest
      else if |text| == 1 || IsSpace(text[1]) then [[text[0]]] + rest
      else [[text[0]] + rest[0]] + rest[1..]
  }

  function StripLeft(text: string): string {
    if text != "" && IsSpace(text[0]) then StripLeft(text[1..]) else text
  }

  function StripRight(text: string): string {
    if text != "" && IsSpace(text[|text| - 1]) then StripRight(text[..|text| - 1]) else text
  }

  function Join(words: seq<string>): string {
    if words == [] then "" else if |words| == 1 then words[0] else words[0] + " " + Join(words[1..])
  }

  function Normalize(text: string): string {
    Join(Words(StripRight(StripLeft(text))))
  }

  predicate IsWord(w: string) {
    w != "" && forall c :: c in w ==> !IsSpace(c)
  }

  predicate AreWords(words: seq<string>) {
    forall w :: w in words ==> IsWord(w)
  }

  lemma {:induction false} WordsAreWords(text: string)
    ensures AreWords(Words(text))
  {
    if text != "" {
      WordsAreWords(text[1..]);
      var rest := Words(text[1..]);
      if !IsSpace(text[0]) && |text| > 1 && !IsSpace(text[1]) {
        assert IsWord(rest[0]);
      }
    }
  }

  lemma {:induction false} LeadingSpace(text: string)
    ensures Words(StripLeft(text)) == Words(text)
  {
    if text != "" && IsSpace(text[0]) {
      LeadingSpace(text[1..]);
    }
  }

  lemma {:induction false} TrailingSpace(text: string, c: char)
    requires IsSpace(c)
    ensures Words(text + [c]) == Words(text)
  {
    var more := text + [c];
    if text == "" {
      assert more[1..] == "";
    } else {
      TrailingSpace(text[1..], c);
      assert more[1..] == text[1..] + [c];
    }
  }

  /** The call to `strip` changes nothing about the words. */
  lemma {:induction false} StripIsRedundant(text: string)
    ensures Words(StripRight(StripLeft(text))) == Words(text)
  {
    LeadingSpace(text);
    StripRightIsRedundant(StripLeft(text));
  }

  lemma {:induction false} StripRightIsRedundant(text: string)
    ensures Words(StripRight(text)) == Words(text)
  {
    if text != "" && IsSpace(text[|text| - 1]) {
      var rest := text[..|text| - 1];
      StripRightIsRedundant(rest);
      TrailingSpace(rest, text[|text| - 1]);
      assert text == rest + [text[|text| - 1]];
    }
  }

  /** A word in front of a blank, or of nothing, is split off whole. */
  lemma {:induction false} FirstWord(w: string, rest: string)
    requires IsWord(w) && (rest != "" ==> IsSpace(rest[0]))
    ensures Words(w + rest) == [w] + Words(rest)
  {
    var text := w + rest;
    assert w[0] in w && text[1..] == w[1..] + rest;
    if |w| == 1 {
      assert w == [w[0]] && w[1..] == "" && text[1..] == rest;
    } else {
      assert forall c :: c in w[1..] ==> c in w;
      FirstWord(w[1..], rest);
      assert text[1] == w[1] && w[1] in w;
      assert w == [w[0]] + w[1..];
    }
  }

  /** Splitting undoes joining. */
  lemma {:induction false} SplitOfJoin(words: seq<string>)
    requires AreWords(words)
    ensures Words(Join(words)) == words
  {
    if words != [] {
      assert words[0] in words;
      if |words| == 1 {
        FirstWord(words[0], "");
        assert words[0] + "" == words[0];
      } else {
        var rest := " " + Join(words[1..]);
        assert forall w :: w in words[1..] ==> w in words;
        SplitOfJoin(words[1..]);
        assert rest[1..] == Join(words[1..]);
        FirstWord(words[0], rest);
        assert words[0] + " " + Join(words[1..]) == words[0] + rest;
      }
    }
  }

  /** Normalising keeps exactly the words. */
  lemma WordsOfNormalized(text: string)
    ensures Words(Normalize(text)) == Words(text)
    ensures Normalize(text) == Join(Words(text))
  {
    StripIsRedundant(text);
    WordsAreWords(text);
    SplitOfJoin(Words(text));
  }

  lemma NormalizeIsIdempotent(text: string)
    ensures Normalize(Normalize(text)) == Normalize(text)
  {
    WordsOfNormalized(text);
    WordsOfNormalized(Normalize(text));
  }

  /** Two outputs normalise equally exactly if they consist of the same words. */
  lemma NormalFormsAreWords(one: string, other: string)
    ensures Normalize(one) == Normalize(other) <==> Words(one) == Words(other)
  {
    WordsOfNormalized(one);
    WordsOfNormalized(other);
  }

  /** Whitespace in `text` is only single spaces between two other characters. */
  predicate SingleSpaced(text: string) {
    && (text != "" ==> !IsSpace(text[0]) && !IsSpace(text[|text| - 1]))
    && forall i :: 0 <= i < |text| - 1 && IsSpace(text[i]) ==> text[i] == ' ' && !IsSpace(text[i + 1])
  }

  lemma {:induction false} JoinIsSingleSpaced(words: seq<string>)
    requires AreWords(words)
    ensures SingleSpaced(Join(words)) && (words != [] ==> Join(words) != "")
  {
    if words != [] {
      var w, rest := words[0], Join(words[1..]);
      assert w in words && w[0] in w && w[|w| - 1] in w && forall i :: 0 <= i < |w| ==> w[i] in w;
      JoinIsSingleSpaced(words[1..]);
      if |words| > 1 {
        var text := w + " " + rest;
        forall i | 0 <= i < |text| - 1 && IsSpace(text[i]) ensures text[i] == ' ' && !IsSpace(text[i + 1]) {
          if i > |w| {
            assert text[i] == rest[i - |w| - 1] && text[i + 1] == rest[i - |w|];
          }
        }
      }
    }
  }

  /** A normal form keeps the words and has single spaces between them, and none before or after. */
  lemma NormalFormIsExact(text: string)
    ensures SingleSpaced(Normalize(text)) && Words(Normalize(text)) == Words(text)
  {
    WordsAreWords(StripRight(StripLeft(text)));
    JoinIsSingleSpaced(Words(StripRight(StripLeft(text))));
    WordsOfNormalized(text);
  }

  // --- The commitment ----------------------------------------------------------------

  type Bytes = seq<bv8>

  const DIGEST_LENGTH := 32

  /** The content identifier's bytes followed by the digest of the output. */
  function Preimage(cid: Bytes, digest: Bytes): Bytes {
    cid + digest
  }

  /** No separator is needed: the digest has a fixed length. */
  lemma PreimageIsInjective(cid: Bytes, digest: Bytes, cid': Bytes, digest': Bytes)
    requires |digest| == |digest'|
    ensures Preimage(cid, digest) == Preimage(cid', digest') <==> cid == cid' && digest == digest'
    ensures |Preimage(cid, digest)| == |cid| + |digest|
    ensures Preimage(cid, digest)[..|cid|] == cid && Preimage(cid, digest)[|cid|..] == digest
  {
    if Preimage(cid, digest) == Preimage(cid', digest') {
      assert Preimage(cid, digest)[..|cid|] == cid && Preimage(cid', digest')[..|cid'|] == cid';
      assert Preimage(cid, digest)[|cid|..] == digest && Preimage(cid', digest')[|cid'|..] == digest';
    }
  }

  function Commitment(encode: string -> Bytes, sha: Bytes -> Bytes, cid: string, text: string): Bytes {
    sha(Preimage(encode(cid), sha(encode(Normalize(text)))))
  }

  /** `f` gives these two arguments different results unless they are equal. */
  predicate Separates<T(==), U(==)>(f: T -> U, a: T, b: T) {
    f(a) == f(b) ==> a == b
  }

  /**
   * As far as the encoding and the hash do not collide on the values at hand, two nodes
   * commit to the same hash exactly if they name the same content and their outputs have
   * the same words.
   */
  lemma CommitmentsAgreeExactly(encode: string -> Bytes, sha: Bytes -> Bytes, cid: string, text: string, cid': string, text': string)
    requires |sha(encode(Normalize(text)))| == DIGEST_LENGTH && |sha(encode(Normalize(text')))| == DIGEST_LENGTH
    requires Separates(encode, cid, cid') && Separates(encode, Normalize(text), Normalize(text'))
    requires Separates(sha, encode(Normalize(text)), encode(Normalize(text')))
    requires Separates(sha, Preimage(encode(cid), sha(encode(Normalize(text)))), Preimage(encode(cid'), sha(encode(Normalize(text')))))
    ensures Commitment(encode, sha, cid, text) == Commitment(encode, sha, cid', text') <==>
              cid == cid' && Words(text) == Words(text')
  {
    NormalFormsAreWords(text, text');
    PreimageIsInjective(encode(cid), sha(encode(Normalize(text))), encode(cid'), sha(encode(Normalize(text'))));
  }
}
