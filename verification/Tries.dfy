/**
 Prefix and suffix matching against a set of words kept in nested dictionaries.
 */
module Tries {
  import opened Sequences
  import opened Wrappers

  /** The order in which the letters of a word are read. */
  function Letters(useSuffix: bool, word: string): string {
    if useSuffix then Flip(word) else word
  }

  lemma LettersTwice(useSuffix: bool, word: string)
    ensures Letters(useSuffix, Letters(useSuffix, word)) == word
  {
  }

  /** The added word is the input, or borders on a delimiter as a prefix or suffix of it. */
  predicate Matched(useSuffix: bool, delimiter: string, w: string, word: string) {
    w == word
    || (|w| < |word| &&
        var n := |word| - |w|;
        if useSuffix then word[n..] == w && (delimiter == "" || word[n - 1] in delimiter)
        else word[..|w|] == w && (delimiter == "" || word[|w|] in delimiter))
  }

  /** A suffix is a prefix of the reversed word. */
  lemma SuffixFlipped(w: string, word: string)
    requires |w| <= |word|
    ensures word[|word| - |w|..] == w <==> Flip(word)[..|w|] == Flip(w)
  {
    hide Flip;
    var tail, head, v := word[|word| - |w|..], Flip(word)[..|w|], Flip(w);
    forall i | 0 <= i < |w| ensures head[i] == tail[|w| - 1 - i] && v[i] == w[|w| - 1 - i] {
    }
    if tail == w {
      assert head == v;
    }
    if head == v {
      forall i | 0 <= i < |w| ensures tail[i] == w[i] {
        assert head[|w| - 1 - i] == tail[i] && v[|w| - 1 - i] == w[i];
      }
    }
  }

  /** Read in the order of the trie, a match is always one of a prefix. */
  lemma MatchedAsPrefix(useSuffix: bool, delimiter: string, w: string, word: string)
    ensures Matched(useSuffix, delimiter, w, word)
            <==> Matched(false, delimiter, Letters(useSuffix, w), Letters(useSuffix, word))
  {
    LettersTwice(useSuffix, w);
    LettersTwice(useSuffix, word);
    hide Flip;
    if useSuffix && |w| < |word| {
      SuffixFlipped(w, word);
      assert w != word && Flip(w) != Flip(word);
      assert Flip(word)[|w|] == word[|word| - |w| - 1];
    }
  }

  /** One dictionary: a dictionary per next letter, and the mark that a word ends here. */
  class Node {
    var children: map<char, Node>
    var end: bool

    constructor ()
      ensures children == map[] && !end
    {
      children := map[];
      end := false;
    }
  }

  class Trie {
    const useSuffix: bool
    const matchDelimiter: string
    const tree: Node
    ghost var words: set<string>
    /** The node each sequence of letters leads to. */
    ghost var at: map<string, Node>

    /** The children of a node are the nodes one letter further on. */
    ghost predicate Linked(p: string, c: char)
      requires p in at
      reads this`at, at.Values`children
    {
      if p + [c] in at then c in at[p].children && at[p].children[c] == at[p + [c]]
      else c !in at[p].children
    }

    ghost predicate HasParent(p: string)
      reads this`at
    {
      p != "" ==> p[..|p| - 1] in at
    }

    /** The nodes form a tree, labelled by the letters that lead to them. */
    ghost predicate Shape()
      reads this`at, at.Values`children
    {
      && "" in at && at[""] == tree
      && (forall p, c {:trigger Linked(p, c)} | p in at :: Linked(p, c))
      && (forall p {:trigger HasParent(p)} | p in at :: HasParent(p))
      && (forall p, q | p in at && q in at && at[p] == at[q] :: p == q)
    }

    /** The ends are where the words lead to. */
    ghost predicate Valid()
      reads this, at.Values
    {
      && Shape()
      && (forall w {:trigger HasPath(w)} | w in words :: HasPath(w))
      && (forall p | p in at :: at[p].end <==> Letters(useSuffix, p) in words)
    }

    ghost predicate HasPath(w: string)
      reads this`at
    {
      Letters(useSuffix, w) in at
    }

    constructor (wordList: seq<string>, useSuffix: bool, matchDelimiter: string)
      ensures Valid() && words == (set w | w in wordList)
      ensures this.useSuffix == useSuffix && this.matchDelimiter == matchDelimiter
    {
      this.useSuffix := useSuffix;
      this.matchDelimiter := matchDelimiter;
      var node := new Node();
      tree := node;
      words := {};
      at := map["" := node];
      new;
      for i := 0 to |wordList|
        invariant Valid() && fresh(at.Values)
        invariant words == set w | w in wordList[..i]
      {
        assert wordList[..i + 1] == wordList[..i] + [wordList[i]];
        Add(wordList[i]);
      }
      assert wordList[..|wordList|] == wordList;
    }

    method Add(word: string)
      requires Valid()
      modifies this`words, this`at, at.Values
      ensures Valid() && words == old(words) + {word}
      ensures fresh(at.Values - old(at.Values))
    {
      var letters := Letters(useSuffix, word);
      LettersTwice(useSuffix, word);
      hide Letters;
      var cursor := tree;
      for i := 0 to |letters|
        invariant Valid() && words == old(words)
        invariant letters[..i] in at && at[letters[..i]] == cursor
        invariant fresh(at.Values - old(at.Values))
      {
        assert letters[..i + 1] == letters[..i] + [letters[i]];
        if letters[i] !in cursor.children {
          Grow(letters[..i], letters[i], cursor);
        }
        assert Linked(letters[..i], letters[i]);
        cursor := cursor.children[letters[i]];
      }
      assert letters[..|letters|] == letters;
      if !cursor.end {
        cursor.end := true;
      }
      words := words + {word};
      forall p | p in at ensures at[p].end <==> Letters(useSuffix, p) in words {
        LettersTwice(useSuffix, p);
      }
    }

    /** A new dictionary below the cursor. */
    method Grow(path: string, letter: char, cursor: Node)
      requires Valid() && path in at && at[path] == cursor && letter !in cursor.children
      modifies this`at, cursor`children
      ensures Valid() && path in at && at[path] == cursor && letter in cursor.children
      ensures fresh(at.Values - old(at.Values))
    {
      hide Letters;
      var node := new Node();
      GrowShape(path, letter, cursor, node);
      forall w | w in words ensures HasPath(w) {
        assert old(HasPath(w));
      }
      ghost var longer := path + [letter];
      LettersTwice(useSuffix, longer);
      assert Letters(useSuffix, longer) in words ==> old(HasPath(Letters(useSuffix, longer)));
      hide Shape;
    }

    /** The tree is still one with the new node. */
    method GrowShape(path: string, letter: char, cursor: Node, node: Node)
      requires Shape() && path in at && at[path] == cursor && letter !in cursor.children
      requires node !in at.Values && node.children == map[]
      modifies this`at, cursor`children
      ensures Shape() && at == old(at)[path + [letter] := node] && path + [letter] !in old(at)
      ensures letter in cursor.children
    {
      var longer := path + [letter];
      assert Linked(path, letter);
      cursor.children := cursor.children[letter := node];
      at := at[longer := node];
      forall p, c | p in at ensures Linked(p, c) {
        var q := p + [c];
        assert q[..|q| - 1] == p && q[|q| - 1] == c;
        if p == longer {
          assert q in old(at) ==> old(HasParent(q));
        } else {
          assert old(Linked(p, c));
          assert q == longer ==> p == path;
          assert p != path ==> old(at[p] != at[path]);
        }
      }
      assert longer[..|longer| - 1] == path;
      forall p | p in at ensures HasParent(p) {
        assert p != longer ==> old(HasParent(p));
      }
    }

    /** Past a missing child there are no words. */
    lemma NothingBelow(p: string, q: string)
      requires Shape() && p <= q && q in at
      ensures p in at
      decreases |q|
    {
      if p != q {
        assert HasParent(q) && p <= q[..|q| - 1];
        NothingBelow(p, q[..|q| - 1]);
      }
    }

    method Contains(word: string) returns (found: bool)
      requires Valid()
      ensures found <==> word in words
    {
      var letters := Letters(useSuffix, word);
      LettersTwice(useSuffix, word);
      hide Letters;
      var cursor := tree;
      for i := 0 to |letters|
        invariant letters[..i] in at && at[letters[..i]] == cursor
      {
        assert letters[..i + 1] == letters[..i] + [letters[i]] && Linked(letters[..i], letters[i]);
        if letters[i] in cursor.children {
          cursor := cursor.children[letters[i]];
        } else {
          if word in words {
            assert HasPath(word);
            NothingBelow(letters[..i + 1], letters);
          }
          return false;
        }
      }
      assert letters[..|letters|] == letters;
      found := cursor.end;
    }

    method Match(word: string, delimiter: Option<string>) returns (found: bool)
      requires Valid()
      ensures var d := if delimiter.Some? then delimiter.value else matchDelimiter;
              found <==> exists w :: w in words && Matched(useSuffix, d, w, word)
    {
      hide Letters, Matched, HasPath, HasParent;
      var d := if delimiter.Some? then delimiter.value else matchDelimiter;
      var letters := Letters(useSuffix, word);
      var cursor := tree;
      for i := 0 to |letters|
        invariant letters[..i] in at && at[letters[..i]] == cursor
        invariant forall j | 0 <= j < i :: letters[..j] in at && !(at[letters[..j]].end && (d == "" || letters[j] in d))
      {
        assert letters[..i + 1] == letters[..i] + [letters[i]] && Linked(letters[..i], letters[i]);
        if cursor.end && (d == "" || letters[i] in d) {
          PrefixMatches(d, word, i);
          return true;
        }
        if letters[i] !in cursor.children {
          NoneMatches(d, word, i + 1);
          return false;
        }
        cursor := cursor.children[letters[i]];
      }
      assert letters[..|letters|] == letters;
      if cursor.end {
        PrefixMatches(d, word, |letters|);
      } else {
        NoneMatches(d, word, |letters|);
      }
      found := cursor.end;
    }

    /** An end that borders on a delimiter, or at the end of the input, is a match. */
    lemma PrefixMatches(delimiter: string, word: string, n: nat)
      requires Valid()
      requires var letters := Letters(useSuffix, word);
               n <= |letters| && letters[..n] in at && at[letters[..n]].end
               && (n == |letters| || delimiter == "" || letters[n] in delimiter)
      ensures exists w :: w in words && Matched(useSuffix, delimiter, w, word)
    {
      var letters := Letters(useSuffix, word);
      var w := Letters(useSuffix, letters[..n]);
      LettersTwice(useSuffix, letters[..n]);
      MatchedAsPrefix(useSuffix, delimiter, w, word);
      assert w in words && Matched(useSuffix, delimiter, w, word);
    }

    /**
     If no end up to the input's letter n borders on a delimiter and nothing goes on from there, there is
     no match.
     */
    lemma NoneMatches(delimiter: string, word: string, n: nat)
      requires Valid()
      requires var letters := Letters(useSuffix, word);
               && n <= |letters|
               && (forall j | 0 <= j < n ::
                     !(letters[..j] in at && at[letters[..j]].end && (delimiter == "" || letters[j] in delimiter)))
               && !(letters[..n] in at && (n < |letters| || at[letters[..n]].end))
      ensures !exists w :: w in words && Matched(useSuffix, delimiter, w, word)
    {
      var letters := Letters(useSuffix, word);
      forall w | w in words ensures !Matched(useSuffix, delimiter, w, word) {
        MatchedAsPrefix(useSuffix, delimiter, w, word);
        NotPrefix(delimiter, letters, n, w);
      }
    }

    lemma NotPrefix(delimiter: string, letters: string, n: nat, w: string)
      requires Valid() && w in words && n <= |letters|
      requires forall j | 0 <= j < n ::
                 !(letters[..j] in at && at[letters[..j]].end && (delimiter == "" || letters[j] in delimiter))
      requires !(letters[..n] in at && (n < |letters| || at[letters[..n]].end))
      ensures !Matched(false, delimiter, Letters(useSuffix, w), letters)
    {
      var v := Letters(useSuffix, w);
      LettersTwice(useSuffix, w);
      hide Letters;
      assert HasPath(w) && v in at && at[v].end;
      if Matched(false, delimiter, v, letters) {
        assert v == letters[..|v|];
        if n <= |v| {
          assert letters[..n] <= v;
          NothingBelow(letters[..n], v);
        }
        assert false;
      }
    }
  }
}
