/** Overwriting app answers, with template keys that fan answers out to several components:
    OverwriteAppAnswers of pkg/monitoring/monitoring.go.

    The source ranges over a map while deleting from it. Go visits the remaining entries in any order and skips
    those deleted before their turn; here every choice of the next entry is left open. */
module AppAnswers {
  import opened Maps
  import opened Ordering
  import opened Sets
  import opened Text

  type Answers = map<string, string>

  /** The parsed value of a template key, `middlePrefix#(root,root,...)`; both parts are empty if it does not parse. */
  datatype Template = Template(middlePrefix: string, roots: seq<string>)

  type Translate = string -> Template

  const TEMPLATE_PREFIX: string := "_tpl-"

  predicate IsTemplate(key: string) {
    HasPrefix(key, TEMPLATE_PREFIX)
  }

  function ActualKey(root: string, suffix: string): string {
    root + "." + suffix
  }

  /** The keys an answer is stored under. */
  function ActualKeys(roots: seq<string>, suffix: string): set<string> {
    set i | 0 <= i < |roots| :: ActualKey(roots[i], suffix)
  }

  function Stored(before: Answers, roots: seq<string>, suffix: string, value: string): Answers {
    before + map k | k in ActualKeys(roots, suffix) :: value
  }

  // ---------- What the result should be ----------

  /** The template key fans the answer with key `suffix` out. */
  ghost predicate Expands(a: Answers, tr: Translate, key: string, suffix: string) {
    key in a && IsTemplate(key) && suffix in a && HasPrefix(suffix, tr(a[key]).middlePrefix)
  }

  /** One of these template and answer pairs produces the key. */
  ghost predicate Makes(a: Answers, tr: Translate, pairs: set<(string, string)>, suffix: string, k: string) {
    exists key :: (key, suffix) in pairs && key in a && k in ActualKeys(tr(a[key]).roots, suffix)
  }

  ghost predicate Made(a: Answers, tr: Translate, pairs: set<(string, string)>, k: string) {
    exists suffix :: suffix in a && Makes(a, tr, pairs, suffix, k)
  }

  ghost function AllPairs(a: Answers, tr: Translate): set<(string, string)> {
    set key, suffix | key in a && suffix in a && Expands(a, tr, key, suffix) :: (key, suffix)
  }

  /** Answers that are neither templates nor fanned out. */
  ghost predicate Explicit(a: Answers, tr: Translate, k: string) {
    k in a && !IsTemplate(k) && forall key :: key in a ==> !Expands(a, tr, key, k)
  }

  /** `r` is `raw` overlaid by what these pairs produce, as far as no explicit answer hides it. */
  ghost predicate Overlaid(r: Answers, raw: Answers, a: Answers, tr: Translate, pairs: set<(string, string)>) {
    && (forall k :: k in r <==> k in raw || Made(a, tr, pairs, k))
    && (forall k, suffix :: suffix in a && Makes(a, tr, pairs, suffix, k) ==>
        k in r && (r[k] == a[suffix] || Explicit(a, tr, k)))
    && (forall k :: k in raw && !Made(a, tr, pairs, k) ==> k in r && r[k] == raw[k])
  }

  ghost function Rest(a: Answers, tr: Translate): Answers {
    map k | k in a && Explicit(a, tr, k) :: a[k]
  }

  /** The documented result: the raw answers, overlaid by the fanned out answers, overlaid by the explicit ones. */
  ghost predicate Overwritten(r: Answers, raw: Answers, a: Answers, tr: Translate) {
    exists mid :: Overlaid(mid, raw, a, tr, AllPairs(a, tr)) && r == mid + Rest(a, tr)
  }

  /** Answers that share a key share a value, unless an explicit answer has that key. */
  ghost predicate Agree(a: Answers, tr: Translate) {
    forall s, s', k ::
        s in a && s' in a && Makes(a, tr, AllPairs(a, tr), s, k) && Makes(a, tr, AllPairs(a, tr), s', k) ==>
      a[s] == a[s'] || Explicit(a, tr, k)
  }

  /** No answer is fanned out by two templates, and no template key is fanned out. */
  ghost predicate Separate(a: Answers, tr: Translate) {
    && (forall s, t, u :: Expands(a, tr, t, s) && Expands(a, tr, u, s) ==> t == u)
    && (forall s, t :: Expands(a, tr, t, s) ==> !IsTemplate(s))
  }

  lemma OverlaysSame(x: Answers, y: Answers, top: Answers)
    requires forall k :: (k in x <==> k in y) && (k in x && k !in top ==> x[k] == y[k])
    ensures x + top == y + top
  {
  }

  lemma OverlaidUnique(r: Answers, r': Answers, raw: Answers, a: Answers, tr: Translate, pairs: set<(string, string)>,
                       k: string)
    requires Overlaid(r, raw, a, tr, pairs) && Overlaid(r', raw, a, tr, pairs)
    ensures k in r <==> k in r'
    ensures k in r && !Explicit(a, tr, k) ==> r[k] == r'[k]
  {
    if k in r && !Explicit(a, tr, k) {
      if suffix :| suffix in a && Makes(a, tr, pairs, suffix, k) {
        assert r[k] == a[suffix] == r'[k];
      } else {
        assert !Made(a, tr, pairs, k);
      }
    }
  }

  /** The documented result determines one map. */
  lemma OverwrittenUnique(r: Answers, r': Answers, raw: Answers, a: Answers, tr: Translate)
    requires Overwritten(r, raw, a, tr) && Overwritten(r', raw, a, tr)
    ensures r == r'
  {
    var mid :| Overlaid(mid, raw, a, tr, AllPairs(a, tr)) && r == mid + Rest(a, tr);
    var mid' :| Overlaid(mid', raw, a, tr, AllPairs(a, tr)) && r' == mid' + Rest(a, tr);
    forall k ensures (k in mid <==> k in mid') && (k in mid && !Explicit(a, tr, k) ==> mid[k] == mid'[k]) {
      OverlaidUnique(mid, mid', raw, a, tr, AllPairs(a, tr), k);
    }
    OverlaysSame(mid, mid', Rest(a, tr));
  }

  // ---------- The orders in which the loops may go ----------

  ghost function MatchedKeys(over: Answers, prefix: string): set<string> {
    set s | s in over && HasPrefix(s, prefix)
  }

  /** One turn of the outer loop: the template, and the answers it takes in the order in which it takes them. */
  datatype Turn = Turn(key: string, suffixes: seq<string>)

  ghost predicate IsTurn(over: Answers, tr: Translate, t: Turn) {
    t.key in over && IsTemplate(t.key) && Enumerates(t.suffixes, MatchedKeys(over, tr(over[t.key]).middlePrefix))
  }

  ghost function Without(over: Answers, tr: Translate, key: string): Answers {
    if key in over then over - MatchedKeys(over, tr(over[key]).middlePrefix) - {key} else over
  }

  /** What is left of the answers after these turns. */
  ghost function Left(a: Answers, tr: Translate, turns: seq<Turn>): Answers {
    if turns == [] then a else Without(Left(a, tr, turns[..|turns| - 1]), tr, turns[|turns| - 1].key)
  }

  /** The answers `over` of these keys, stored under every root, one after the other. */
  ghost function Taken(before: Answers, over: Answers, roots: seq<string>, suffixes: seq<string>): Answers {
    if suffixes == [] then before
    else
      var k := |suffixes| - 1;
      var r := Taken(before, over, roots, suffixes[..k]);
      if suffixes[k] in over then Stored(r, roots, suffixes[k], over[suffixes[k]]) else r
  }

  /** What is stored after these turns. */
  ghost function Written(raw: Answers, a: Answers, tr: Translate, turns: seq<Turn>): Answers {
    if turns == [] then raw
    else
      var k := |turns| - 1;
      var r, over := Written(raw, a, tr, turns[..k]), Left(a, tr, turns[..k]);
      if turns[k].key in over then Taken(r, over, tr(over[turns[k].key]).roots, turns[k].suffixes) else r
  }

  ghost predicate IsWalk(a: Answers, tr: Translate, turns: seq<Turn>) {
    turns == [] ||
    (IsWalk(a, tr, turns[..|turns| - 1]) && IsTurn(Left(a, tr, turns[..|turns| - 1]), tr, turns[|turns| - 1]))
  }

  /** A walk that ends because every template that was not taken out has had its turn. */
  ghost predicate IsFull(a: Answers, tr: Translate, turns: seq<Turn>) {
    IsWalk(a, tr, turns) && forall k :: k in Left(a, tr, turns) ==> !IsTemplate(k)
  }

  ghost function Outcome(raw: Answers, a: Answers, tr: Translate, turns: seq<Turn>): Answers {
    Written(raw, a, tr, turns) + Left(a, tr, turns)
  }

  /** Every order gives the same result. */
  ghost predicate OneResult(raw: Answers, a: Answers, tr: Translate) {
    forall x, y :: IsFull(a, tr, x) && IsFull(a, tr, y) ==> Outcome(raw, a, tr, x) == Outcome(raw, a, tr, y)
  }

  lemma OneMoreTurn(raw: Answers, a: Answers, tr: Translate, turns: seq<Turn>, t: Turn)
    requires IsWalk(a, tr, turns) && IsTurn(Left(a, tr, turns), tr, t)
    ensures IsWalk(a, tr, turns + [t]) && Left(a, tr, turns + [t]) == Without(Left(a, tr, turns), tr, t.key)
    ensures var over := Left(a, tr, turns);
            Written(raw, a, tr, turns + [t]) ==
              Taken(Written(raw, a, tr, turns), over, tr(over[t.key]).roots, t.suffixes)
  {
    assert (turns + [t])[..|turns|] == turns;
  }

  lemma TakenMore(before: Answers, over: Answers, roots: seq<string>, suffixes: seq<string>, suffix: string)
    requires suffix in over
    ensures Taken(before, over, roots, suffixes + [suffix]) ==
            Stored(Taken(before, over, roots, suffixes), roots, suffix, over[suffix])
  {
    assert (suffixes + [suffix])[..|suffixes|] == suffixes;
  }

  lemma EnumeratesMore(ids: seq<string>, members: set<string>, x: string)
    requires Enumerates(ids, members) && x !in members
    ensures Enumerates(ids + [x], members + {x})
  {
  }

  // ---------- Separate templates ----------

  /** The pairs of these templates. */
  ghost function PairsBy(a: Answers, tr: Translate, keys: set<string>): set<(string, string)> {
    set key, suffix | key in keys && suffix in a && Expands(a, tr, key, suffix) :: (key, suffix)
  }

  ghost predicate Consumed(a: Answers, tr: Translate, keys: set<string>, k: string) {
    k in keys || exists key :: key in keys && Expands(a, tr, key, k)
  }

  /** What remains of the answers after these templates. */
  ghost function LeftOver(a: Answers, tr: Translate, keys: set<string>): Answers {
    map k | k in a && !Consumed(a, tr, keys, k) :: a[k]
  }

  /** The answers one template fans out. */
  ghost function SuffixesOf(a: Answers, tr: Translate, key: string): set<string> {
    set s | s in a && Expands(a, tr, key, s)
  }

  ghost function Templates(a: Answers): set<string> {
    set k | k in a && IsTemplate(k)
  }

  /** All of a template's answers are still there when its turn comes. */
  lemma StillThere(a: Answers, tr: Translate, keys: set<string>, key: string)
    requires Separate(a, tr) && keys <= Templates(a) && key in Templates(a) - keys
    ensures key in LeftOver(a, tr, keys)
    ensures MatchedKeys(LeftOver(a, tr, keys), tr(a[key]).middlePrefix) == SuffixesOf(a, tr, key)
  {
    forall s | s in SuffixesOf(a, tr, key) ensures s in LeftOver(a, tr, keys) {
      assert Expands(a, tr, key, s);
    }
    forall s | s in LeftOver(a, tr, keys) && HasPrefix(s, tr(a[key]).middlePrefix) ensures s in SuffixesOf(a, tr, key) {
      assert Expands(a, tr, key, s);
    }
  }

  lemma LeftOverStep(a: Answers, tr: Translate, keys: set<string>, key: string)
    ensures LeftOver(a, tr, keys + {key}) == LeftOver(a, tr, keys) - SuffixesOf(a, tr, key) - {key}
  {
    forall k
      ensures Consumed(a, tr, keys + {key}, k) <==> Consumed(a, tr, keys, k) || k == key || Expands(a, tr, key, k)
    {
      if Expands(a, tr, key, k) {
        assert key in keys + {key};
      }
      if Consumed(a, tr, keys, k) && k !in keys {
        var t :| t in keys && Expands(a, tr, t, k);
        assert t in keys + {key};
      }
    }
  }

  lemma NothingLeftOver(a: Answers, tr: Translate)
    ensures LeftOver(a, tr, {}) == a && PairsBy(a, tr, {}) == {}
  {
  }

  ghost function KeysOf(turns: seq<Turn>): set<string> {
    set i | 0 <= i < |turns| :: turns[i].key
  }

  lemma KeysOfMore(turns: seq<Turn>)
    requires turns != []
    ensures KeysOf(turns) == KeysOf(turns[..|turns| - 1]) + {turns[|turns| - 1].key}
  {
    var k := |turns| - 1;
    forall i | 0 <= i < k ensures turns[i].key in KeysOf(turns[..k]) {
      assert turns[..k][i] == turns[i];
    }
  }

  /** After any turns of separate templates, what is left does not depend on their order. */
  lemma {:induction false} WalkLeaves(a: Answers, tr: Translate, turns: seq<Turn>)
    requires Separate(a, tr) && IsWalk(a, tr, turns)
    ensures KeysOf(turns) <= Templates(a) && Left(a, tr, turns) == LeftOver(a, tr, KeysOf(turns))
    decreases |turns|
  {
    if turns == [] {
      NothingLeftOver(a, tr);
    } else {
      var before, key := turns[..|turns| - 1], turns[|turns| - 1].key;
      WalkLeaves(a, tr, before);
      KeysOfMore(turns);
      StillThere(a, tr, KeysOf(before), key);
      LeftOverStep(a, tr, KeysOf(before), key);
    }
  }

  /** In a full walk every template has its turn, and the explicit answers are left. */
  lemma FullWalk(a: Answers, tr: Translate, turns: seq<Turn>)
    requires Separate(a, tr) && IsFull(a, tr, turns)
    ensures KeysOf(turns) == Templates(a) && Left(a, tr, turns) == Rest(a, tr)
  {
    WalkLeaves(a, tr, turns);
    forall k | k in Templates(a) ensures k in KeysOf(turns) {
      assert k !in LeftOver(a, tr, KeysOf(turns));
    }
    forall k ensures Consumed(a, tr, Templates(a), k) && k in a <==> k in a && !Explicit(a, tr, k) {
      if k in a && !Explicit(a, tr, k) && !IsTemplate(k) {
        var key :| key in a && Expands(a, tr, key, k);
        assert key in Templates(a);
      }
    }
  }

  // ---------- The documented result ----------

  lemma MakesOneMore(a: Answers, tr: Translate, pairs: set<(string, string)>, key: string, suffix: string, s: string,
                     k: string)
    requires key in a
    ensures Makes(a, tr, pairs + {(key, suffix)}, s, k) <==>
            Makes(a, tr, pairs, s, k) || (s == suffix && k in ActualKeys(tr(a[key]).roots, suffix))
  {
    var more := pairs + {(key, suffix)};
    if Makes(a, tr, pairs, s, k) {
      var t :| (t, s) in pairs && t in a && k in ActualKeys(tr(a[t]).roots, s);
      assert (t, s) in more;
    }
    if s == suffix && k in ActualKeys(tr(a[key]).roots, suffix) {
      assert (key, s) in more;
    }
  }

  lemma MakesFewer(a: Answers, tr: Translate, pairs: set<(string, string)>, more: set<(string, string)>, s: string,
                   k: string)
    requires pairs <= more && Makes(a, tr, pairs, s, k)
    ensures Makes(a, tr, more, s, k)
  {
    var t :| (t, s) in pairs && t in a && k in ActualKeys(tr(a[t]).roots, s);
    assert (t, s) in more;
  }

  /** Which keys are made when one pair is added. */
  lemma MadeOneMore(a: Answers, tr: Translate, pairs: set<(string, string)>, key: string, suffix: string, k: string)
    requires key in a && suffix in a
    ensures Made(a, tr, pairs + {(key, suffix)}, k) <==>
            Made(a, tr, pairs, k) || k in ActualKeys(tr(a[key]).roots, suffix)
  {
    forall s ensures Makes(a, tr, pairs + {(key, suffix)}, s, k) <==>
                     Makes(a, tr, pairs, s, k) || (s == suffix && k in ActualKeys(tr(a[key]).roots, suffix))
    {
      MakesOneMore(a, tr, pairs, key, suffix, s, k);
    }
    if k in ActualKeys(tr(a[key]).roots, suffix) {
      assert Makes(a, tr, pairs + {(key, suffix)}, suffix, k);
    }
  }

  /** Answers that share a key with the new one. */
  lemma SharedValue(a: Answers, tr: Translate, pairs: set<(string, string)>, key: string, suffix: string, s: string,
                    k: string)
    requires Agree(a, tr) && key in a && suffix in a && s in a && pairs + {(key, suffix)} <= AllPairs(a, tr)
    requires k in ActualKeys(tr(a[key]).roots, suffix) && Makes(a, tr, pairs + {(key, suffix)}, s, k)
    ensures a[s] == a[suffix] || Explicit(a, tr, k)
  {
    var more := pairs + {(key, suffix)};
    MakesOneMore(a, tr, pairs, key, suffix, suffix, k);
    MakesFewer(a, tr, more, AllPairs(a, tr), s, k);
    MakesFewer(a, tr, more, AllPairs(a, tr), suffix, k);
  }

  lemma OverlaidStep(r: Answers, raw: Answers, a: Answers, tr: Translate, pairs: set<(string, string)>, key: string,
                     suffix: string)
    requires Overlaid(r, raw, a, tr, pairs) && Agree(a, tr) && key in a && suffix in a
    requires pairs + {(key, suffix)} <= AllPairs(a, tr)
    ensures Overlaid(Stored(r, tr(a[key]).roots, suffix, a[suffix]), raw, a, tr, pairs + {(key, suffix)})
  {
    var more, keys := pairs + {(key, suffix)}, ActualKeys(tr(a[key]).roots, suffix);
    var next := Stored(r, tr(a[key]).roots, suffix, a[suffix]);
    forall k, s | s in a && Makes(a, tr, more, s, k) ensures k in next && (next[k] == a[s] || Explicit(a, tr, k)) {
      MakesOneMore(a, tr, pairs, key, suffix, s, k);
      if k in keys {
        SharedValue(a, tr, pairs, key, suffix, s, k);
      }
    }
    forall k ensures Made(a, tr, more, k) <==> Made(a, tr, pairs, k) || k in keys {
      MadeOneMore(a, tr, pairs, key, suffix, k);
    }
  }

  ghost function PairsOf(key: string, suffixes: seq<string>): set<(string, string)> {
    set s | s in suffixes :: (key, s)
  }

  lemma {:induction false} TakenOverlays(r: Answers, raw: Answers, a: Answers, over: Answers, tr: Translate,
                                         pairs: set<(string, string)>, key: string, suffixes: seq<string>)
    requires Overlaid(r, raw, a, tr, pairs) && Agree(a, tr) && key in a &&
             pairs + PairsOf(key, suffixes) <= AllPairs(a, tr)
    requires forall s :: s in suffixes ==> s in over && s in a && over[s] == a[s]
    ensures Overlaid(Taken(r, over, tr(a[key]).roots, suffixes), raw, a, tr, pairs + PairsOf(key, suffixes))
    decreases |suffixes|
  {
    if suffixes == [] {
      assert pairs + PairsOf(key, suffixes) == pairs;
    } else {
      var k := |suffixes| - 1;
      var some, suffix := suffixes[..k], suffixes[k];
      assert PairsOf(key, suffixes) == PairsOf(key, some) + {(key, suffix)};
      TakenOverlays(r, raw, a, over, tr, pairs, key, some);
      OverlaidStep(Taken(r, over, tr(a[key]).roots, some), raw, a, tr, pairs + PairsOf(key, some), key, suffix);
      assert pairs + PairsOf(key, suffixes) == pairs + PairsOf(key, some) + {(key, suffix)};
    }
  }

  lemma PairsByStep(a: Answers, tr: Translate, keys: set<string>, key: string, suffixes: seq<string>)
    requires Enumerates(suffixes, SuffixesOf(a, tr, key))
    ensures PairsBy(a, tr, keys + {key}) == PairsBy(a, tr, keys) + PairsOf(key, suffixes)
    ensures PairsBy(a, tr, keys + {key}) <= AllPairs(a, tr)
  {
    forall s ensures s in suffixes <==> s in a && Expands(a, tr, key, s) {
      assert s in suffixes <==> s in SuffixesOf(a, tr, key);
    }
  }

  lemma TurnOverlays(raw: Answers, a: Answers, tr: Translate, before: seq<Turn>, t: Turn)
    requires Separate(a, tr) && Agree(a, tr) && IsWalk(a, tr, before) && IsTurn(Left(a, tr, before), tr, t)
    requires Overlaid(Written(raw, a, tr, before), raw, a, tr, PairsBy(a, tr, KeysOf(before)))
    ensures var over := Left(a, tr, before);
            Overlaid(Taken(Written(raw, a, tr, before), over, tr(over[t.key]).roots, t.suffixes), raw, a, tr,
                     PairsBy(a, tr, KeysOf(before) + {t.key}))
  {
    WalkLeaves(a, tr, before);
    StillThere(a, tr, KeysOf(before), t.key);
    PairsByStep(a, tr, KeysOf(before), t.key, t.suffixes);
    TakenOverlays(Written(raw, a, tr, before), raw, a, Left(a, tr, before), tr, PairsBy(a, tr, KeysOf(before)), t.key,
                  t.suffixes);
  }

  lemma {:induction false} WalkOverlays(raw: Answers, a: Answers, tr: Translate, turns: seq<Turn>)
    requires Separate(a, tr) && Agree(a, tr) && IsWalk(a, tr, turns)
    ensures Overlaid(Written(raw, a, tr, turns), raw, a, tr, PairsBy(a, tr, KeysOf(turns)))
    decreases |turns|
  {
    if turns == [] {
      NothingLeftOver(a, tr);
    } else {
      var before, t := turns[..|turns| - 1], turns[|turns| - 1];
      WalkOverlays(raw, a, tr, before);
      TurnOverlays(raw, a, tr, before, t);
      KeysOfMore(turns);
    }
  }

  /** Whatever order the entries are visited in, the result is the documented one. */
  lemma FullOverwrites(raw: Answers, a: Answers, tr: Translate, turns: seq<Turn>)
    requires Separate(a, tr) && Agree(a, tr) && IsFull(a, tr, turns)
    ensures Overwritten(Outcome(raw, a, tr, turns), raw, a, tr)
  {
    FullWalk(a, tr, turns);
    WalkOverlays(raw, a, tr, turns);
    assert PairsBy(a, tr, Templates(a)) == AllPairs(a, tr);
  }

  // ---------- When the order does not matter ----------

  lemma TurnOf(a: Answers, tr: Translate, before: seq<Turn>, key: string, suffixes: seq<string>)
      returns (turns: seq<Turn>)
    requires Separate(a, tr) && IsWalk(a, tr, before) && key in Templates(a) - KeysOf(before)
    requires Enumerates(suffixes, SuffixesOf(a, tr, key))
    ensures turns == before + [Turn(key, suffixes)] && IsWalk(a, tr, turns) && KeysOf(turns) == KeysOf(before) + {key}
  {
    WalkLeaves(a, tr, before);
    StillThere(a, tr, KeysOf(before), key);
    turns := before + [Turn(key, suffixes)];
    assert turns[..|before|] == before;
    KeysOfMore(turns);
  }

  /** Separate templates can have their turns in any order. */
  lemma {:induction false} SomeWalk(a: Answers, tr: Translate, keys: set<string>) returns (turns: seq<Turn>)
    requires Separate(a, tr) && keys <= Templates(a)
    ensures IsWalk(a, tr, turns) && KeysOf(turns) == keys
    decreases keys
  {
    if keys == {} {
      return [];
    }
    var key :| key in keys;
    var before := SomeWalk(a, tr, keys - {key});
    var suffixes := ListSet(SuffixesOf(a, tr, key));
    turns := TurnOf(a, tr, before, key, suffixes);
    assert keys - {key} + {key} == keys;
  }

  lemma LastWins(raw: Answers, a: Answers, tr: Translate, before: seq<Turn>, key: string, others: seq<string>,
                 suffix: string, k: string)
    requires Separate(a, tr) && IsWalk(a, tr, before) && key in Templates(a) - KeysOf(before) &&
             Expands(a, tr, key, suffix)
    requires k in ActualKeys(tr(a[key]).roots, suffix)
    ensures var r := Written(raw, a, tr, before + [Turn(key, others + [suffix])]); k in r && r[k] == a[suffix]
  {
    var turns := before + [Turn(key, others + [suffix])];
    assert turns[..|before|] == before;
    WalkLeaves(a, tr, before);
    StillThere(a, tr, KeysOf(before), key);
    assert suffix in SuffixesOf(a, tr, key);
    TakenMore(Written(raw, a, tr, before), Left(a, tr, before), tr(a[key]).roots, others, suffix);
  }

  /** Any template can be the last, and any of its answers the last it takes. */
  lemma LastTaken(raw: Answers, a: Answers, tr: Translate, key: string, suffix: string, k: string)
      returns (turns: seq<Turn>)
    requires Separate(a, tr) && Expands(a, tr, key, suffix) && k in ActualKeys(tr(a[key]).roots, suffix) &&
             !Explicit(a, tr, k)
    ensures IsFull(a, tr, turns) && k in Outcome(raw, a, tr, turns) && Outcome(raw, a, tr, turns)[k] == a[suffix]
  {
    var before := SomeWalk(a, tr, Templates(a) - {key});
    var others := ListSet(SuffixesOf(a, tr, key) - {suffix});
    EnumeratesMore(others, SuffixesOf(a, tr, key) - {suffix}, suffix);
    assert SuffixesOf(a, tr, key) - {suffix} + {suffix} == SuffixesOf(a, tr, key);
    turns := TurnOf(a, tr, before, key, others + [suffix]);
    assert Templates(a) - {key} + {key} == Templates(a);
    WalkLeaves(a, tr, turns);
    assert IsFull(a, tr, turns);
    FullWalk(a, tr, turns);
    LastWins(raw, a, tr, before, key, others, suffix, k);
  }

  /** For separate templates the order does not matter exactly if answers that share a key share a value, unless an
      explicit answer has that key. */
  lemma OneResultExactly(raw: Answers, a: Answers, tr: Translate)
    requires Separate(a, tr)
    ensures OneResult(raw, a, tr) <==> Agree(a, tr)
  {
    if Agree(a, tr) {
      forall x, y | IsFull(a, tr, x) && IsFull(a, tr, y) ensures Outcome(raw, a, tr, x) == Outcome(raw, a, tr, y) {
        FullOverwrites(raw, a, tr, x);
        FullOverwrites(raw, a, tr, y);
        OverwrittenUnique(Outcome(raw, a, tr, x), Outcome(raw, a, tr, y), raw, a, tr);
      }
    } else {
      var s, s', k :| s in a && s' in a && Makes(a, tr, AllPairs(a, tr), s, k) &&
        Makes(a, tr, AllPairs(a, tr), s', k) &&
                      a[s] != a[s'] && !Explicit(a, tr, k);
      var t :| (t, s) in AllPairs(a, tr) && t in a && k in ActualKeys(tr(a[t]).roots, s);
      var t' :| (t', s') in AllPairs(a, tr) && t' in a && k in ActualKeys(tr(a[t']).roots, s');
      var x := LastTaken(raw, a, tr, t, s, k);
      var y := LastTaken(raw, a, tr, t', s', k);
    }
  }

  /** Two templates that fan out the only other answer. */
  ghost predicate Rivals(a: Answers, tr: Translate, one: string, two: string, suffix: string) {
    && a.Keys == {one, two, suffix} && one != two && IsTemplate(one) && IsTemplate(two) && !IsTemplate(suffix)
    && tr(a[one]).middlePrefix == tr(a[two]).middlePrefix && MatchedKeys(a, tr(a[one]).middlePrefix) == {suffix}
  }

  lemma RivalLeft(a: Answers, tr: Translate, one: string, two: string, suffix: string)
    requires Rivals(a, tr, one, two, suffix)
    ensures Without(a, tr, one) == map[two := a[two]] && IsTurn(a, tr, Turn(one, [suffix]))
    ensures IsTurn(map[two := a[two]], tr, Turn(two, [])) && Without(map[two := a[two]], tr, two) == map[]
  {
    var prefix := tr(a[one]).middlePrefix;
    assert suffix in MatchedKeys(a, prefix) && one !in MatchedKeys(a, prefix) && two !in MatchedKeys(a, prefix);
    assert MatchedKeys(map[two := a[two]], prefix) == {};
  }

  lemma OneTurn(raw: Answers, a: Answers, tr: Translate, key: string, suffix: string)
    requires IsTurn(a, tr, Turn(key, [suffix])) && suffix in a
    ensures IsWalk(a, tr, [Turn(key, [suffix])]) && Left(a, tr, [Turn(key, [suffix])]) == Without(a, tr, key)
    ensures Written(raw, a, tr, [Turn(key, [suffix])]) == Stored(raw, tr(a[key]).roots, suffix, a[suffix])
  {
    assert [] + [suffix] == [suffix] && [] + [Turn(key, [suffix])] == [Turn(key, [suffix])];
    OneMoreTurn(raw, a, tr, [], Turn(key, [suffix]));
    TakenMore(raw, a, tr(a[key]).roots, [], suffix);
  }

  lemma IdleTurn(raw: Answers, a: Answers, tr: Translate, turns: seq<Turn>, key: string)
    requires IsWalk(a, tr, turns) && IsTurn(Left(a, tr, turns), tr, Turn(key, []))
    requires Without(Left(a, tr, turns), tr, key) == map[]
    ensures IsFull(a, tr, turns + [Turn(key, [])])
    ensures Outcome(raw, a, tr, turns + [Turn(key, [])]) == Written(raw, a, tr, turns)
  {
    OneMoreTurn(raw, a, tr, turns, Turn(key, []));
  }

  /** The one that comes first gets it. */
  lemma FirstTakes(raw: Answers, a: Answers, tr: Translate, one: string, two: string, suffix: string)
      returns (turns: seq<Turn>)
    requires Rivals(a, tr, one, two, suffix)
    ensures IsFull(a, tr, turns) && Outcome(raw, a, tr, turns) == Stored(raw, tr(a[one]).roots, suffix, a[suffix])
  {
    RivalLeft(a, tr, one, two, suffix);
    OneTurn(raw, a, tr, one, suffix);
    turns := [Turn(one, [suffix])];
    IdleTurn(raw, a, tr, turns, two);
    turns := turns + [Turn(two, [])];
  }

  /** So the order matters if their roots give different results. */
  lemma RivalsDiffer(raw: Answers, a: Answers, tr: Translate, one: string, two: string, suffix: string)
    requires Rivals(a, tr, one, two, suffix)
    requires Stored(raw, tr(a[one]).roots, suffix, a[suffix]) != Stored(raw, tr(a[two]).roots, suffix, a[suffix])
    ensures !OneResult(raw, a, tr)
  {
    var first := FirstTakes(raw, a, tr, one, two, suffix);
    var second := FirstTakes(raw, a, tr, two, one, suffix);
    assert Outcome(raw, a, tr, first) != Outcome(raw, a, tr, second);
  }

  /** For instance, one answer for two components. */
  lemma TwoTemplatesTwoResults()
    ensures var a := map["_tpl-1" := "1", "_tpl-2" := "2", "p" := "v"];
            !OneResult(map[], a, v => if v == "1" then Template("p", ["x"]) else Template("p", ["y"]))
  {
    var a := map["_tpl-1" := "1", "_tpl-2" := "2", "p" := "v"];
    var tr: Translate := v => if v == "1" then Template("p", ["x"]) else Template("p", ["y"]);
    assert "_tpl-1"[0] != 'p' && "_tpl-2"[0] != 'p' && "p"[0] == 'p';
    assert MatchedKeys(a, "p") == {"p"};
    assert ActualKey(["x"][0], "p") == "x.p" && ActualKey("y", "p")[0] == 'y';
    assert "x.p" in Stored(map[], ["x"], "p", "v") && "x.p" !in Stored(map[], ["y"], "p", "v");
    RivalsDiffer(map[], a, tr, "_tpl-1", "_tpl-2", "p");
  }

  lemma {:induction false} NoRoots(before: Answers, over: Answers, suffixes: seq<string>)
    ensures Taken(before, over, [], suffixes) == before
    decreases |suffixes|
  {
    if suffixes != [] {
      NoRoots(before, over, suffixes[..|suffixes| - 1]);
    }
  }

  /** A template whose value does not parse has an empty prefix and no roots. If it comes first it takes every answer
      out, and nothing is overwritten at all. */
  lemma UnparsedTakesAll(raw: Answers, a: Answers, tr: Translate, key: string) returns (turns: seq<Turn>)
    requires key in a && IsTemplate(key) && tr(a[key]) == Template("", [])
    ensures IsFull(a, tr, turns) && Outcome(raw, a, tr, turns) == raw
  {
    var suffixes := ListSet(a.Keys);
    turns := [Turn(key, suffixes)];
    assert MatchedKeys(a, "") == a.Keys;
    OneMoreTurn(raw, a, tr, [], turns[0]);
    assert [] + turns == turns;
    assert Without(a, tr, key) == map[];
    NoRoots(raw, a, suffixes);
  }

  // ---------- The loops ----------

  lemma ActualKeysMore(roots: seq<string>, root: string, suffix: string)
    ensures ActualKeys(roots + [root], suffix) == ActualKeys(roots, suffix) + {ActualKey(root, suffix)}
  {
    var all := roots + [root];
    forall i | 0 <= i < |roots| ensures ActualKey(roots[i], suffix) in ActualKeys(all, suffix) {
      assert all[i] == roots[i];
    }
    assert all[|roots|] == root;
  }

  lemma StoredMore(before: Answers, roots: seq<string>, root: string, suffix: string, value: string)
    ensures Stored(before, roots + [root], suffix, value) ==
            Stored(before, roots, suffix, value)[ActualKey(root, suffix) := value]
  {
    ActualKeysMore(roots, root, suffix);
  }

  /** Store a value under every root. */
  method PutRoots(before: Answers, roots: seq<string>, suffix: string, value: string) returns (r: Answers)
    ensures r == Stored(before, roots, suffix, value)
  {
    r := before;
    for i := 0 to |roots|
      invariant r == Stored(before, roots[..i], suffix, value)
    {
      StoredMore(before, roots[..i], roots[i], suffix, value);
      assert roots[..i + 1] == roots[..i] + [roots[i]];
      r := r[ActualKey(roots[i], suffix) := value];
    }
    assert roots[..|roots|] == roots;
  }

  /** The inner loop: every remaining answer under the template's prefix is stored under each root and taken out. */
  method FanOut(before: Answers, over: Answers, t: Template)
      returns (r: Answers, left: Answers, ghost suffixes: seq<string>)
    ensures Enumerates(suffixes, MatchedKeys(over, t.middlePrefix))
    ensures left == over - MatchedKeys(over, t.middlePrefix)
    ensures r == Taken(before, over, t.roots, suffixes)
  {
    r, left, suffixes := before, over, [];
    var rest := over.Keys;
    ghost var all := MatchedKeys(over, t.middlePrefix);
    ghost var done: set<string> := {};
    while rest != {}
      invariant rest <= over.Keys
      invariant done == all - rest
      invariant left == over - done
      invariant Enumerates(suffixes, done)
      invariant r == Taken(before, over, t.roots, suffixes)
      decreases rest
    {
      var suffix :| suffix in rest;
      CoverOne(all, rest, suffix);
      if HasPrefix(suffix, t.middlePrefix) {
        RemoveTwice(over, done, {suffix});
        TakenMore(before, over, t.roots, suffixes, suffix);
        EnumeratesMore(suffixes, done, suffix);
        r := PutRoots(r, t.roots, suffix, over[suffix]);
        left := left - {suffix};
        suffixes := suffixes + [suffix];
        done := done + {suffix};
      }
      rest := rest - {suffix};
    }
    assert done == all;
  }

  /** Every run of the loops is a full walk, and its result is that walk's. */
  method OverwriteAppAnswers(raw: Answers, overwrite: Answers, tr: Translate)
      returns (r: Answers, ghost turns: seq<Turn>)
    ensures IsFull(overwrite, tr, turns) && r == Outcome(raw, overwrite, tr, turns)
    ensures Separate(overwrite, tr) && Agree(overwrite, tr) ==> Overwritten(r, raw, overwrite, tr)
  {
    r, turns := raw, [];
    var over, rest := overwrite, overwrite.Keys;
    while rest != {}
      invariant rest <= over.Keys
      invariant IsWalk(overwrite, tr, turns)
      invariant over == Left(overwrite, tr, turns) && r == Written(raw, overwrite, tr, turns)
      invariant forall k :: k in over && IsTemplate(k) ==> k in rest
      decreases rest
    {
      var key :| key in rest;
      if IsTemplate(key) {
        ghost var suffixes;
        r, over, suffixes := FanOut(r, over, tr(over[key]));
        over := over - {key};
        OneMoreTurn(raw, overwrite, tr, turns, Turn(key, suffixes));
        turns := turns + [Turn(key, suffixes)];
      }
      rest := (rest - {key}) * over.Keys;
    }
    r := Overlay(r, over);
    if Separate(overwrite, tr) && Agree(overwrite, tr) {
      FullOverwrites(raw, overwrite, tr, turns);
    }
  }
}
