/**
 * The two derived settings of the producer configuration section that the
 * send path reads: the list of compressed topics and the key serializer.
 * An attribute's value is None when it is null.
 */
module ProducerConfiguration {
  import opened Wrappers
  import TopicFilters

  /** string.Split(','): the pieces between commas, empty ones included; "" gives [""]. */
  function Split(s: string): (r: seq<string>)
    ensures |r| >= 1
  {
    if s == [] then [[]]
    else if s[0] == ',' then [[]] + Split(s[1..])
    else var rest := Split(s[1..]); [[s[0]] + rest[0]] + rest[1..]
  }

  /** The pieces joined with ','. */
  function Join(parts: seq<string>): string
  {
    if parts == [] then [] else if |parts| == 1 then parts[0] else parts[0] + "," + Join(parts[1..])
  }

  /** The pieces written one after the other. */
  function Concat(parts: seq<string>): string
  {
    if parts == [] then [] else parts[0] + Concat(parts[1..])
  }

  predicate CommaFree(parts: seq<string>)
  {
    forall i :: 0 <= i < |parts| ==> ',' !in parts[i]
  }

  /** Splitting yields comma-free pieces that join back into the string. */
  lemma {:induction false} SplitJoin(s: string)
    ensures CommaFree(Split(s))
    ensures Join(Split(s)) == s
  {
    if s != [] {
      SplitJoin(s[1..]);
      var rest := Split(s[1..]);
      if s[0] == ',' {
        assert Split(s)[1..] == rest;
      } else {
        var r := Split(s);
        assert r[0] == [s[0]] + rest[0];
        if |rest| == 1 {
          assert Join(r) == [s[0]] + rest[0];
        } else {
          assert r[1..] == rest[1..];
          assert Join(rest) == rest[0] + "," + Join(rest[1..]);
        }
        forall i | 0 <= i < |r| ensures ',' !in r[i] {
          if i > 0 { assert r[i] == rest[i]; }
        }
      }
    }
  }

  /** Joining comma-free pieces and splitting again gives the pieces back. */
  lemma {:induction false} JoinSplit(parts: seq<string>)
    requires parts != [] && CommaFree(parts)
    ensures Split(Join(parts)) == parts
    decreases |parts|, |parts[0]|
  {
    var p := parts[0];
    if p == [] {
      if |parts| > 1 {
        assert Join(parts) == "," + Join(parts[1..]);
        JoinSplit(parts[1..]);
        assert [[]] + parts[1..] == parts;
      }
    } else {
      var shorter := [p[1..]] + parts[1..];
      assert CommaFree(shorter) by {
        forall i | 0 <= i < |shorter| ensures ',' !in shorter[i] {
          if i == 0 {
            assert forall x :: x in p[1..] ==> x in p;
          } else {
            assert shorter[i] == parts[i];
          }
        }
      }
      JoinSplit(shorter);
      assert p[0] != ',' by { assert p[0] in parts[0]; }
      if |parts| == 1 {
        assert Join(parts) == p;
        assert Join(shorter) == p[1..];
      } else {
        assert Join(parts) == p + "," + Join(parts[1..]);
        assert shorter[1..] == parts[1..];
        assert Join(shorter) == p[1..] + "," + Join(parts[1..]);
      }
      assert Join(parts)[0] == p[0] && Join(parts)[1..] == Join(shorter);
      assert [p[0]] + p[1..] == p;
      assert [p] + parts[1..] == parts;
    }
  }

  /** The non-empty pieces, in order. */
  function NonEmpty(parts: seq<string>): (r: seq<string>)
  {
    if parts == [] then [] else (if parts[0] == [] then [] else [parts[0]]) + NonEmpty(parts[1..])
  }

  /**
   * CompressedTopics: no topics when the attribute is null or empty;
   * otherwise the non-empty comma-separated pieces.
   */
  function CompressedTopics(compressedTopics: Option<string>): (r: seq<string>)
    ensures compressedTopics.None? ==> r == []
    ensures forall i :: 0 <= i < |r| ==> r[i] != [] && ',' !in r[i]
  {
    if compressedTopics.None? || compressedTopics.value == [] then []
    else
      SplitJoin(compressedTopics.value);
      NonEmptyFacts(Split(compressedTopics.value));
      NonEmpty(Split(compressedTopics.value))
  }

  lemma {:induction false} NonEmptyFacts(parts: seq<string>)
    ensures forall i :: 0 <= i < |NonEmpty(parts)| ==> NonEmpty(parts)[i] != []
    ensures CommaFree(parts) ==> CommaFree(NonEmpty(parts))
    ensures Concat(NonEmpty(parts)) == Concat(parts)
    ensures (forall i :: 0 <= i < |parts| ==> parts[i] != []) ==> NonEmpty(parts) == parts
  {
    if parts != [] {
      NonEmptyFacts(parts[1..]);
      var r := NonEmpty(parts);
      var tail := NonEmpty(parts[1..]);
      if parts[0] != [] {
        assert r == [parts[0]] + tail;
        forall i | 0 < i < |r| ensures r[i] == tail[i - 1] { }
      } else {
        assert r == tail;
      }
    }
  }

  lemma {:induction false} ConcatSplit(s: string)
    ensures Concat(Split(s)) == TopicFilters.RemoveChar(s, ',')
  {
    if s != [] {
      ConcatSplit(s[1..]);
      var rest := Split(s[1..]);
      if s[0] != ',' {
        assert Split(s)[1..] == rest[1..];
        assert Concat(rest) == rest[0] + Concat(rest[1..]);
      }
    }
  }

  /**
   * Each configured topic is non-empty and comma-free, and together they
   * spell the attribute with its commas removed.
   */
  lemma CompressedTopicsFacts(compressedTopics: Option<string>)
    ensures forall i :: 0 <= i < |CompressedTopics(compressedTopics)| ==>
      CompressedTopics(compressedTopics)[i] != [] && ',' !in CompressedTopics(compressedTopics)[i]
    ensures compressedTopics.Some? ==>
      Concat(CompressedTopics(compressedTopics)) == TopicFilters.RemoveChar(compressedTopics.value, ',')
  {
    if compressedTopics.Some? && compressedTopics.value != [] {
      var parts := Split(compressedTopics.value);
      SplitJoin(compressedTopics.value);
      NonEmptyFacts(parts);
      ConcatSplit(compressedTopics.value);
    }
  }

  /** The number of non-empty pieces among the first j. */
  function Kept(parts: seq<string>, j: nat): (r: nat)
    requires j <= |parts|
    ensures r <= j
  {
    if j == 0 then 0 else (if parts[0] == [] then 0 else 1) + Kept(parts[1..], j - 1)
  }

  /**
   * NonEmpty keeps exactly the non-empty pieces, in their order: as many
   * as there are, and the non-empty piece at index j at the place the
   * count of non-empty pieces before it gives.
   */
  lemma {:induction false} NonEmptyKeepsOrder(parts: seq<string>)
    ensures |NonEmpty(parts)| == Kept(parts, |parts|)
    ensures forall j :: 0 <= j < |parts| && parts[j] != [] ==>
      Kept(parts, j) < |NonEmpty(parts)| && NonEmpty(parts)[Kept(parts, j)] == parts[j]
  {
    if parts != [] {
      var tail := parts[1..];
      NonEmptyKeepsOrder(tail);
      forall j | 0 <= j < |parts| && parts[j] != []
        ensures Kept(parts, j) < |NonEmpty(parts)| && NonEmpty(parts)[Kept(parts, j)] == parts[j]
      {
        if j > 0 {
          assert parts[j] == tail[j - 1];
        }
      }
    }
  }

  /**
   * The attribute with its commas tidied, read left to right: pending is
   * whether a comma is owed before the next topic character, started
   * whether one was written. Commas before the first topic character and
   * after the last are dropped, and a run of commas between two becomes one.
   */
  function Squeeze(s: string, pending: bool, started: bool): string
  {
    if s == [] then []
    else if s[0] == ',' then Squeeze(s[1..], started, started)
    else (if pending then "," else "") + ([s[0]] + Squeeze(s[1..], false, true))
  }

  function Collapse(s: string): string
  {
    Squeeze(s, false, false)
  }

  /** The non-empty pieces joined with ',', after a ',' when something was written before them. */
  function JoinAfter(parts: seq<string>, started: bool): string
  {
    if NonEmpty(parts) == [] then [] else (if started then "," else "") + Join(NonEmpty(parts))
  }

  lemma {:induction false} SplitSqueezes(s: string, started: bool)
    ensures JoinAfter(Split(s), started) == Squeeze(s, started, started)
    decreases |s|
  {
    if s == [] {
      var e := Split(s);
      assert e == [[]] && e[0] == [] && e[1..] == [];
      assert NonEmpty(e) == NonEmpty([]);
    } else {
      if s[0] == ',' {
        assert Split(s) == [[]] + Split(s[1..]);
        assert NonEmpty(Split(s)) == NonEmpty(Split(s[1..]));
        SplitSqueezes(s[1..], started);
      } else {
        var rest := Split(s[1..]);
        assert Split(s) == [[s[0]] + rest[0]] + rest[1..];
        assert Split(s) == Piece([s[0]], s[1..]);
        PieceSqueezes([s[0]], s[1..], started);
      }
    }
  }

  /** The pieces of w + s when w holds no comma: w extends the first piece of s. */
  function Piece(w: string, s: string): seq<string>
  {
    [w + Split(s)[0]] + Split(s)[1..]
  }

  /** A piece begun with the topic characters w, then the rest of s split. */
  lemma {:induction false} PieceSqueezes(w: string, s: string, started: bool)
    requires w != []
    ensures JoinAfter(Piece(w, s), started) == (if started then "," else "") + (w + Squeeze(s, false, true))
    decreases |s|
  {
    if s == [] {
      LastPiece(w, started);
    } else if s[0] == ',' {
      SplitSqueezes(s[1..], true);
      CommaStep(w, s, started);
    } else {
      PieceSqueezes(w + [s[0]], s[1..], started);
      CharStep(w, s, started);
    }
  }

  /** PieceSqueezes across a comma, from SplitSqueezes for what follows it. */
  lemma CommaStep(w: string, s: string, started: bool)
    requires w != [] && s != [] && s[0] == ','
    requires JoinAfter(Split(s[1..]), true) == Squeeze(s[1..], true, true)
    ensures JoinAfter(Piece(w, s), started) == (if started then "," else "") + (w + Squeeze(s, false, true))
  {
    CommaPiece(w, s);
    JoinAfterCons(w, Piece(w, s), Split(s[1..]), started);
    assert Squeeze(s, false, true) == Squeeze(s[1..], true, true);
  }

  /** PieceSqueezes across a topic character, from PieceSqueezes for the longer piece. */
  lemma CharStep(w: string, s: string, started: bool)
    requires w != [] && s != [] && s[0] != ','
    requires JoinAfter(Piece(w + [s[0]], s[1..]), started) ==
      (if started then "," else "") + ((w + [s[0]]) + Squeeze(s[1..], false, true))
    ensures JoinAfter(Piece(w, s), started) == (if started then "," else "") + (w + Squeeze(s, false, true))
  {
    CharPiece(w, s);
    SqueezeChar(w, s);
  }

  /** Inside a piece, a topic character is written as it is. */
  lemma SqueezeChar(w: string, s: string)
    requires s != [] && s[0] != ','
    ensures w + Squeeze(s, false, true) == (w + [s[0]]) + Squeeze(s[1..], false, true)
  {
    var tail := Squeeze(s[1..], false, true);
    assert Squeeze(s, false, true) == [s[0]] + tail;
    assert w + ([s[0]] + tail) == (w + [s[0]]) + tail;
  }

  /** At the end of the attribute the piece w is the last one. */
  lemma LastPiece(w: string, started: bool)
    requires w != []
    ensures JoinAfter(Piece(w, []), started) == (if started then "," else "") + w
  {
    var e := Split([]);
    assert e == [[]] && e[0] == [] && e[1..] == [];
    assert w + e[0] == w;
    assert NonEmpty([w]) == [w] + NonEmpty([]);
  }

  /** A topic character extends the piece w. */
  lemma CharPiece(w: string, s: string)
    requires s != [] && s[0] != ','
    ensures Piece(w, s) == Piece(w + [s[0]], s[1..])
  {
    var rest := Split(s[1..]);
    assert Split(s) == [[s[0]] + rest[0]] + rest[1..];
    assert w + ([s[0]] + rest[0]) == (w + [s[0]]) + rest[0];
  }

  /** A comma ends the piece w: what follows is split afresh. */
  lemma CommaPiece(w: string, s: string)
    requires w != [] && s != [] && s[0] == ','
    ensures NonEmpty(Piece(w, s)) == [w] + NonEmpty(Split(s[1..]))
  {
    var parts := Piece(w, s);
    assert Split(s) == [[]] + Split(s[1..]);
    assert parts[0] == w;
    assert parts[1..] == Split(s[1..]);
  }

  /** The piece w, then the non-empty ones of rest after a ','. */
  lemma JoinAfterCons(w: string, parts: seq<string>, rest: seq<string>, started: bool)
    requires w != [] && NonEmpty(parts) == [w] + NonEmpty(rest)
    ensures JoinAfter(parts, started) == (if started then "," else "") + (w + JoinAfter(rest, true))
  {
    var ne := NonEmpty(rest);
    if ne == [] {
      assert [w] + ne == [w];
      assert Join([w]) == w;
      assert w + JoinAfter(rest, true) == w;
    } else {
      assert Join([w] + ne) == w + "," + Join(ne);
      assert JoinAfter(rest, true) == "," + Join(ne);
      assert w + "," + Join(ne) == w + ("," + Join(ne));
    }
  }

  /**
   * Joining the topics with ',' gives the attribute with its commas tidied
   * (Collapse), which is the attribute itself when no segment is empty;
   * and the topics are that tidied attribute split at its commas.
   */
  lemma CompressedTopicsJoin(s: string)
    ensures Join(CompressedTopics(Some(s))) == Collapse(s)
    ensures s != [] && (forall i :: 0 <= i < |Split(s)| ==> Split(s)[i] != []) ==> Join(CompressedTopics(Some(s))) == s
    ensures CompressedTopics(Some(s)) != [] ==> CompressedTopics(Some(s)) == Split(Collapse(s))
  {
    if s != [] {
      SplitSqueezes(s, false);
      SplitJoin(s);
      NonEmptyFacts(Split(s));
      var topics := CompressedTopics(Some(s));
      if topics != [] {
        JoinSplit(topics);
      }
    }
  }

  /** The attribute "a,,b" lists the topics "a" and "b". */
  lemma CompressedTopicsSkipsEmpty()
    ensures CompressedTopics(Some("a,,b")) == ["a", "b"]
  {
    SplitWithEmptySegment();
    assert NonEmpty(["b"]) == ["b"];
    assert NonEmpty(["", "b"]) == ["b"];
    assert NonEmpty(["a", "", "b"]) == ["a", "b"];
  }

  /** "a,,b" splits into "a", an empty piece and "b". */
  lemma SplitWithEmptySegment()
    ensures Split("a,,b") == ["a", "", "b"]
  {
    assert "a,,b"[1..] == ",,b" && ",,b"[1..] == ",b" && ",b"[1..] == "b" && "b"[1..] == "";
    var e := Split("");
    assert e == [""] && e[1..] == [];
    assert ['b'] + e[0] == "b";
    assert Split("b") == ["b"];
    assert Split(",b") == ["", "b"];
    var r := Split(",,b");
    assert r == ["", "", "b"] && r[0] == "" && r[1..] == ["", "b"];
    assert ['a'] + r[0] == "a";
  }

  /** A list of non-empty comma-free topic names written comma-separated is read back as that list. */
  lemma CompressedTopicsRoundTrip(topics: seq<string>)
    requires topics != [] && CommaFree(topics)
    requires forall i :: 0 <= i < |topics| ==> topics[i] != []
    ensures CompressedTopics(Some(Join(topics))) == topics
  {
    JoinSplit(topics);
    NonEmptyFacts(topics);
    assert Join(topics) != [] by {
      if |topics| == 1 {
        assert Join(topics) == topics[0];
      } else {
        assert Join(topics) == topics[0] + "," + Join(topics[1..]);
      }
    }
  }

  /**
   * An attribute's value as the section returns it: the configured value,
   * or the property's declared default when it is not configured.
   */
  function Attribute(configured: Option<string>, declaredDefault: Option<string>): Option<string>
  {
    if configured.Some? then configured else declaredDefault
  }

  /** KeySerializer: the "keySerializer" attribute, or "serializer" when that is null. */
  function KeySerializer(keySerializer: Option<string>, serializer: Option<string>): (r: Option<string>)
    ensures r.None? <==> keySerializer.None? && serializer.None?
    ensures r.Some? ==> r == keySerializer || r == serializer
  {
    if keySerializer.Some? then keySerializer else serializer
  }

  /**
   * With "keySerializer" declaring a non-null default, the fallback to
   * "serializer" is never taken: the result is the configured key
   * serializer, or else the default.
   */
  lemma KeySerializerDefault(configured: Option<string>, defaultKeySerializer: string, serializer: Option<string>)
    ensures KeySerializer(Attribute(configured, Some(defaultKeySerializer)), serializer)
            == Some(if configured.Some? then configured.value else defaultKeySerializer)
  {
  }
}
