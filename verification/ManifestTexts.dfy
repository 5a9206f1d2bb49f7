/** What the scalar normalizers of a manifest leave of a text, a list of texts, a
    path and a record of defaults. */
module ManifestTexts {
  import opened Prelude
  import opened Text
  import opened ManifestPaths
  import opened ManifestLists
  import opened Manifests

  predicate Blank(s: string) { forall i | 0 <= i < |s| :: IsWhite(s[i]) }

  /** t is s without the white space around it. */
  ghost predicate TrimsTo(s: string, t: string) {
    && (t != "" ==> !IsWhite(t[0]) && !IsWhite(t[|t| - 1]))
    && exists before, after :: Blank(before) && Blank(after) && s == before + t + after
  }

  /** The text says something, and this is it. */
  ghost predicate Says(s: string, t: string) { TrimsTo(s, t) && t != "" }

  lemma {:induction false} StartTrims(s: string) returns (before: string)
    ensures Blank(before) && s == before + TrimStart(s)
  {
    if s != "" && IsWhite(s[0]) {
      var rest := StartTrims(s[1..]);
      before := [s[0]] + rest;
    } else {
      before := "";
    }
  }

  lemma {:induction false} EndTrims(s: string) returns (after: string)
    ensures Blank(after) && s == TrimEnd(s) + after
  {
    if s != "" && IsWhite(s[|s| - 1]) {
      var rest := EndTrims(s[..|s| - 1]);
      after := rest + [s[|s| - 1]];
    } else {
      after := "";
    }
  }

  lemma {:induction false} BlankStart(before: string, s: string)
    requires Blank(before)
    ensures TrimStart(before + s) == TrimStart(s)
  {
    if before == "" {
      assert before + s == s;
    } else {
      BlankStart(before[1..], s);
      assert (before + s)[1..] == before[1..] + s;
    }
  }

  lemma {:induction false} BlankEnd(s: string, after: string)
    requires Blank(after)
    ensures TrimEnd(s + after) == TrimEnd(s)
  {
    if after == "" {
      assert s + after == s;
    } else {
      var init := after[..|after| - 1];
      BlankEnd(s, init);
      assert (s + after)[..|s + after| - 1] == s + init;
    }
  }

  /** Trimming leaves what lies between the white space, and nothing else. */
  lemma TrimExactly(s: string, t: string)
    ensures Trim(s) == t <==> TrimsTo(s, t)
  {
    if Trim(s) == t {
      TrimTrims(s);
      var before := StartTrims(s);
      var after := EndTrims(TrimStart(s));
      Associates(before, t, after);
    }
    if TrimsTo(s, t) {
      var before, after :| Blank(before) && Blank(after) && s == before + t + after;
      Associates(before, t, after);
      BlankStart(before, t + after);
      if t == "" {
        assert t + after == after + "";
        BlankStart(after, "");
      } else {
        BlankEnd(t, after);
      }
    }
  }

  /** A text that says nothing is the same as none. */
  lemma NonEmptyExactly(text: Option<string>, kept: Option<string>)
    ensures NonEmpty(text) == kept <==>
            if kept.Some? then text.Some? && Says(text.value, kept.value)
            else text.None? || TrimsTo(text.value, "")
  {
    if text.Some? {
      TrimExactly(text.value, "");
      TrimExactly(text.value, Trim(text.value));
      if kept.Some? {
        TrimExactly(text.value, kept.value);
      }
    }
    hide Trim, TrimsTo;
  }

  // --- Lists of texts ---

  /** What the texts say, each thing once, in the order it is said first: a text that
      says nothing, or what was said before, adds nothing; any other adds what it
      says at the end. */
  ghost predicate SaidOnce(values: seq<string>, kept: seq<string>) {
    if values == [] then kept == []
    else
      var init, last := values[..|values| - 1], values[|values| - 1];
      if Blank(last) then SaidOnce(init, kept)
      else
        || (SaidOnce(init, kept) && exists t :: t in kept && Says(last, t))
        || (kept != [] && Says(last, kept[|kept| - 1]) && kept[|kept| - 1] !in kept[..|kept| - 1]
            && SaidOnce(init, kept[..|kept| - 1]))
  }

  lemma SaidMore(init: seq<string>, last: string, kept: seq<string>, t: string)
    requires SaidOnce(init, kept) && Trim(last) == t
    ensures SaidOnce(init + [last], if t == "" || t in kept then kept else kept + [t])
  {
    var values := init + [last];
    TrimExactly(last, t);
    BlankTrimmed(last);
    TrimExactly(last, "");
    hide Trim, TrimsTo, Blank;
    assert values[..|init|] == init && values[|init|] == last;
    if t != "" {
      assert Says(last, t);
      if t !in kept {
        assert (kept + [t])[..|kept|] == kept;
      }
    }
  }

  lemma {:induction false} UniqueStringsExactly(values: seq<string>)
    ensures SaidOnce(values, UniqueStrings(values))
  {
    if values == [] {
      NothingUnique();
      assert values[..0] == [];
    } else {
      var init, last := values[..|values| - 1], values[|values| - 1];
      UniqueStringsExactly(init);
      assert values == init + [last];
      UniqueStringsSnoc(init, last);
      hide UniqueStrings, SaidOnce, Trim;
      SaidMore(init, last, UniqueStrings(init), Trim(last));
    }
  }

  lemma UniqueStringsSnoc(init: seq<string>, last: string)
    ensures UniqueStrings(init + [last]) ==
            if Trim(last) == "" || Trim(last) in UniqueStrings(init) then UniqueStrings(init)
            else UniqueStrings(init) + [Trim(last)]
  {
    hide Trim;
    assert (init + [last])[..|init|] == init;
    assert Said(init) + [] == Said(init);
    UniqueSnoc(Said(init), Trim(last));
  }

  // --- Paths ---

  /** What the pieces say, in their order; those that say nothing are left out. */
  ghost predicate KeptFrom(pieces: seq<string>, kept: seq<string>) {
    if pieces == [] then kept == []
    else if Blank(pieces[0]) then KeptFrom(pieces[1..], kept)
    else kept != [] && Says(pieces[0], kept[0]) && KeptFrom(pieces[1..], kept[1..])
  }

  lemma {:induction false} KeptPieces(pieces: seq<string>)
    ensures KeptFrom(pieces, Kept(pieces))
  {
    if pieces != [] {
      KeptPieces(pieces[1..]);
      TrimExactly(pieces[0], Trim(pieces[0]));
      TrimExactly(pieces[0], "");
      BlankTrimmed(pieces[0]);
      hide Trim, TrimsTo, Blank;
      KeptCons(pieces);
    }
  }

  lemma {:induction false} KeptMembers(pieces: seq<string>)
    ensures forall p, segment | 0 <= p < |pieces| && Says(pieces[p], segment) :: segment in Kept(pieces)
    ensures forall segment | segment in Kept(pieces) :: exists p :: 0 <= p < |pieces| && Says(pieces[p], segment)
  {
    if pieces != [] {
      KeptMembers(pieces[1..]);
      forall t ensures Says(pieces[0], t) <==> t == Trim(pieces[0]) != "" {
        TrimExactly(pieces[0], t);
      }
      KeptCons(pieces);
      hide Trim, TrimsTo, Blank, Says;
      assert Kept(pieces) == if Trim(pieces[0]) == "" then Kept(pieces[1..]) else [Trim(pieces[0])] + Kept(pieces[1..]);
      hide Kept;
      assert forall p | 0 < p < |pieces| :: pieces[p] == pieces[1..][p - 1];
      forall segment | segment in Kept(pieces) ensures exists p :: 0 <= p < |pieces| && Says(pieces[p], segment) {
        if !Says(pieces[0], segment) {
          var p :| 0 <= p < |pieces[1..]| && Says(pieces[1..][p], segment);
          assert Says(pieces[p + 1], segment);
        }
      }
    }
  }

  lemma KeptCons(pieces: seq<string>)
    requires pieces != []
    ensures Trim(pieces[0]) == "" ==> Kept(pieces) == Kept(pieces[1..])
    ensures Trim(pieces[0]) != "" ==>
              Kept(pieces) != [] && Kept(pieces)[0] == Trim(pieces[0]) && Kept(pieces)[1..] == Kept(pieces[1..])
  {
    hide Trim;
    NothingBefore(Kept(pieces[1..]));
  }

  lemma BlankTrimmed(s: string)
    ensures TrimsTo(s, "") <==> Blank(s)
  {
    if TrimsTo(s, "") {
      var before, after :| Blank(before) && Blank(after) && s == before + "" + after;
    }
    if Blank(s) {
      assert s == s + "" + "" && Blank("");
    }
  }

  /** Every piece that says something is one a path may have, and there is one. */
  ghost predicate GoodPieces(pieces: seq<string>, decode: string -> string) {
    && (exists p :: 0 <= p < |pieces| && !Blank(pieces[p]))
    && forall p, segment | 0 <= p < |pieces| && Says(pieces[p], segment) :: GoodSegment(segment, decode)
  }

  lemma GoodPiecesExactly(pieces: seq<string>, decode: string -> string)
    ensures GoodSegments(Kept(pieces), decode) <==> GoodPieces(pieces, decode)
  {
    KeptMembers(pieces);
    forall p | 0 <= p < |pieces| ensures !Blank(pieces[p]) <==> exists segment :: Says(pieces[p], segment) {
      SaysSomething(pieces[p]);
    }
    hide GoodSegment, Kept, KeptFrom, Says, Blank;
    var kept := Kept(pieces);
    if kept != [] {
      assert kept[0] in kept;
      var p :| 0 <= p < |pieces| && Says(pieces[p], kept[0]);
      assert !Blank(pieces[p]);
    }
    if p :| 0 <= p < |pieces| && !Blank(pieces[p]) {
      var segment :| Says(pieces[p], segment);
      assert segment in kept;
    }
    if GoodPieces(pieces, decode) {
      forall segment | segment in kept ensures GoodSegment(segment, decode) {
        var p :| 0 <= p < |pieces| && Says(pieces[p], segment);
      }
    }
  }

  lemma SaysSomething(s: string)
    ensures !Blank(s) <==> exists t :: Says(s, t)
  {
    BlankTrimmed(s);
    TrimExactly(s, "");
    TrimExactly(s, Trim(s));
    hide Trim, TrimsTo, Blank;
    if !Blank(s) {
      assert Says(s, Trim(s));
    }
    if t :| Says(s, t) {
      TrimExactly(s, t);
    }
  }

  /** The relative paths that are accepted, and what is kept of one: its pieces that
      say something, with a slash between each two. */
  lemma RelativePathExactly(value: string, decode: string -> string)
    ensures var s, path := Trim(value), RelativePath(value, decode);
            && (path.Some? <==>
                s != "" && !HasScheme(s) && s[0] != '/' && '\\' !in s && GoodPieces(Split(s), decode))
            && (path.Some? ==> KeptFrom(Split(s), Split(path.value)))
  {
    var s := Trim(value);
    GoodPiecesExactly(Split(s), decode);
    hide Trim, HasScheme, GoodPieces, KeptFrom, GoodSegments, Split;
    if RelativePath(value, decode).Some? {
      RelativePathIsNormal(value, decode);
      KeptPieces(Split(s));
    }
  }

  /** The same for absolute paths, which begin with one slash. */
  lemma AbsolutePathExactly(value: string, decode: string -> string)
    ensures var s, path := Trim(value), AbsolutePath(value, decode);
            && (path.Some? <==>
                && s != "" && s[0] == '/' && (|s| == 1 || s[1] != '/') && '\\' !in s && '?' !in s && '#' !in s
                && GoodPieces(Split(s), decode))
            && (path.Some? ==>
                path.value != "" && path.value[0] == '/' && KeptFrom(Split(s), Split(path.value[1..])))
  {
    var s := Trim(value);
    GoodPiecesExactly(Split(s), decode);
    NoSchemeAtSlash(s);
    hide Trim, HasScheme, GoodPieces, KeptFrom, GoodSegments, Split;
    if AbsolutePath(value, decode).Some? {
      AbsolutePathIsNormal(value, decode);
      KeptPieces(Split(s));
    }
  }

  lemma NoSchemeAtSlash(s: string)
    ensures s != "" && s[0] == '/' ==> !HasScheme(s)
  {
  }

  // --- Defaults ---

  /** The value given last under a key. */
  ghost predicate GivenLast(entries: seq<Default>, d: Default) {
    exists i :: 0 <= i < |entries| && Says(entries[i].key, d.key) && entries[i].value == d.value
                && forall j | i < j < |entries| :: !Says(entries[j].key, d.key)
  }

  lemma DefaultsSnoc(init: seq<Default>, last: Default)
    ensures Defaults(init + [last]) ==
            if Trim(last.key) == "" then Defaults(init)
            else Upsert(Defaults(init), Default(Trim(last.key), last.value), DefaultKey, Newer)
  {
    assert (init + [last])[..|init|] == init;
    if Trim(last.key) != "" {
      var d := Default(Trim(last.key), last.value);
      assert (SaidDefaults(init) + [d])[..|SaidDefaults(init)|] == SaidDefaults(init);
    }
  }

  /** Normalized defaults have the keys that say something, each once and in the
      order they come first, each with the value given last. */
  lemma {:induction false} DefaultsExactly(entries: seq<Default>)
    ensures SaidOnce(KeysOf(entries, DefaultKey), KeysOf(Defaults(entries), DefaultKey))
    ensures forall d | d in Defaults(entries) :: GivenLast(entries, d)
  {
    hide Trim, TrimsTo, SaidOnce, Defaults;
    if entries == [] {
      NoDefaults();
    } else {
      var init, last := entries[..|entries| - 1], entries[|entries| - 1];
      assert entries == init + [last];
      DefaultsExactly(init);
      DefaultsSettle(init);
      DefaultsSnoc(init, last);
      KeysOfSnoc(entries, DefaultKey);
      forall u ensures Says(last.key, u) <==> u == Trim(last.key) != "" {
        TrimExactly(last.key, u);
      }
      SaidMore(KeysOf(init, DefaultKey), last.key, KeysOf(Defaults(init), DefaultKey), Trim(last.key));
      DefaultSet(init, last, Defaults(init), Trim(last.key));
    }
  }

  lemma NoDefaults()
    ensures Defaults([]) == [] && SaidOnce(KeysOf([], DefaultKey), KeysOf([], DefaultKey))
  {
  }

  lemma KeyAt(entries: seq<Default>, q: nat)
    requires q < |entries|
    ensures |KeysOf(entries, DefaultKey)| == |entries| && KeysOf(entries, DefaultKey)[q] == entries[q].key
  {
    assert KeysOf(entries, DefaultKey)[q] == DefaultKey(entries[q]);
  }

  lemma DefaultSet(init: seq<Default>, last: Default, before: seq<Default>, key: string)
    requires Distinct(KeysOf(before, DefaultKey)) && forall d | d in before :: GivenLast(init, d)
    requires forall u :: Says(last.key, u) <==> u == key != ""
    ensures var after := if key == "" then before else Upsert(before, Default(key, last.value), DefaultKey, Newer);
            && (forall d | d in after :: GivenLast(init + [last], d))
            && KeysOf(after, DefaultKey) ==
               if key == "" || key in KeysOf(before, DefaultKey) then KeysOf(before, DefaultKey)
               else KeysOf(before, DefaultKey) + [key]
  {
    hide Says;
    var entries, keys := init + [last], KeysOf(before, DefaultKey);
    IndexOfFinds(keys, key);
    forall d | d in before && (d.key != key || key == "") ensures GivenLast(entries, d) {
      var i :| 0 <= i < |init| && Says(init[i].key, d.key) && init[i].value == d.value
               && forall j | i < j < |init| :: !Says(init[j].key, d.key);
      assert entries[i] == init[i];
      assert forall j | i < j < |init| :: entries[j] == init[j];
    }
    if key != "" {
      var added := Default(key, last.value);
      assert entries[|init|] == last;
      assert GivenLast(entries, added);
      var after, p := Upsert(before, added, DefaultKey, Newer), IndexOf(keys, key);
      if p < |before| {
        assert KeysOf(after, DefaultKey) == keys;
        forall d | d in after ensures GivenLast(entries, d) {
          var q :| 0 <= q < |after| && after[q] == d;
          KeyAt(before, q);
          assert q != p ==> keys[q] != keys[p] && d == before[q] && d in before;
        }
      } else {
        assert keys[..p] == keys;
        KeysOfSum(before, [added], DefaultKey);
        assert KeysOf([added], DefaultKey) == [key];
        forall d | d in before ensures d.key != key {
          var q :| 0 <= q < |before| && before[q] == d;
          KeyAt(before, q);
          assert keys[q] in keys;
        }
      }
    }
  }
}
