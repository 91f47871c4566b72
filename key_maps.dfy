/**
 * Key bindings of the terminal front end (oombak_tui/src/widgets/key_maps.rs):
 * a map from keys to descriptions, merged between a focused component and
 * its parent, and reversed into descriptions each listing its keys, in
 * description order, for the help bar.
 *
 * The reversed map is an ordered map keyed by description; it is modelled
 * as its entries in ascending order, each a KeyMap, which is also what the
 * help bar's list of KeyMaps is.
 */
module KeyMaps {
  import opened Wrappers
  import BitvecStr

  /**
   * A key code: a character, an arrow, or another key, which the terminal
   * library writes by its name ("Enter", "F2").
   */
  datatype KeyCode = Char(c: char) | Up | Down | Left | Right | Named(name: string)

  const Enter: KeyCode := Named("Enter")

  /** A function key. */
  function F(n: nat): KeyCode {
    Named("F" + BitvecStr.NatToString(n))
  }

  /** The modifiers the front end binds and can show. */
  datatype KeyModifiers = KeyModifiers(shift: bool, control: bool, alt: bool)

  const NoModifiers := KeyModifiers(false, false, false)

  datatype KeyId = KeyId(keyCode: KeyCode, keyModifiers: KeyModifiers)

  /** A description, ordered by priority first and then by text. */
  datatype KeyDesc = KeyDesc(prio: int, desc: string)

  /** A description's keys, as the help bar lists them. */
  datatype KeyMap = KeyMap(keyIds: seq<KeyId>, description: KeyDesc)

  type Mappings = map<KeyId, KeyDesc>

  function FromChar(ch: char): KeyId {
    KeyId(Char(ch), NoModifiers)
  }

  function FromCode(code: KeyCode): KeyId {
    KeyId(code, NoModifiers)
  }

  /** KeyDesc::from: priority 0. */
  function DescFrom(desc: string): KeyDesc {
    KeyDesc(0, desc)
  }

  /** KeyDesc::prio: the same text with another priority. */
  function WithPrio(d: KeyDesc, prio: int): KeyDesc {
    d.(prio := prio)
  }

  /** String order: character by character, a proper prefix first. */
  predicate StringLess(a: string, b: string)
    decreases |a|
  {
    if a == [] then b != []
    else if b == [] then false
    else a[0] < b[0] || (a[0] == b[0] && StringLess(a[1..], b[1..]))
  }

  /** The derived order on descriptions: priority, then text. */
  predicate DescLess(a: KeyDesc, b: KeyDesc) {
    a.prio < b.prio || (a.prio == b.prio && StringLess(a.desc, b.desc))
  }

  lemma {:induction false} StringLessIrreflexive(a: string)
    ensures !StringLess(a, a)
    decreases |a|
  {
    if a != [] {
      StringLessIrreflexive(a[1..]);
    }
  }

  lemma {:induction false} StringLessTransitive(a: string, b: string, c: string)
    requires StringLess(a, b) && StringLess(b, c)
    ensures StringLess(a, c)
    decreases |a|
  {
    if a != [] && a[0] == b[0] && b[0] == c[0] {
      StringLessTransitive(a[1..], b[1..], c[1..]);
    }
  }

  lemma {:induction false} StringLessTotal(a: string, b: string)
    requires a != b
    ensures StringLess(a, b) || StringLess(b, a)
    decreases |a|
  {
    if a != [] && b != [] && a[0] == b[0] {
      StringLessTotal(a[1..], b[1..]);
    }
  }

  /** Descriptions are in a strict total order. */
  lemma {:induction false} DescOrder(a: KeyDesc, b: KeyDesc, c: KeyDesc)
    ensures !DescLess(a, a)
    ensures DescLess(a, b) && DescLess(b, c) ==> DescLess(a, c)
    ensures a != b ==> DescLess(a, b) || DescLess(b, a)
  {
    StringLessIrreflexive(a.desc);
    if DescLess(a, b) && DescLess(b, c) && a.prio == b.prio == c.prio {
      StringLessTransitive(a.desc, b.desc, c.desc);
    }
    if a != b && a.prio == b.prio {
      StringLessTotal(a.desc, b.desc);
    }
  }

  /**
   * The constructors: a description from text has priority 0, prio
   * changes only the priority, and keys from a character or a code have
   * no modifiers.
   */
  lemma {:induction false} ConstructorsSpec(desc: string, prio: int, ch: char, code: KeyCode)
    ensures DescFrom(desc).prio == 0 && DescFrom(desc).desc == desc
    ensures WithPrio(DescFrom(desc), prio) == KeyDesc(prio, desc)
    ensures FromChar(ch).keyModifiers == NoModifiers && FromChar(ch).keyCode == Char(ch)
    ensures FromCode(code).keyModifiers == NoModifiers && FromCode(code).keyCode == code
  {
  }

  /** insert: the key now has the new description, whatever it had before. */
  function Insert(m: Mappings, k: KeyId, d: KeyDesc): (r: Mappings)
    ensures r.Keys == m.Keys + {k} && r[k] == d
    ensures forall k' :: k' in m && k' != k ==> r[k'] == m[k']
  {
    m[k := d]
  }

  /**
   * merge_mappings: every key of either map; a key of the higher map keeps
   * its description, and a key only in the lower map takes the lower one.
   */
  method MergeMappings(higher: Mappings, lower: Mappings) returns (merged: Mappings)
    ensures merged.Keys == higher.Keys + lower.Keys
    ensures forall k :: k in higher ==> merged[k] == higher[k]
    ensures forall k :: k in lower && k !in higher ==> merged[k] == lower[k]
    ensures merged == lower + higher
  {
    merged := higher;
    var rest := lower.Keys;
    while rest != {}
      invariant rest <= lower.Keys
      invariant merged == (lower - rest) + higher
      decreases rest
    {
      var k :| k in rest;
      if k !in higher {
        merged := merged[k := lower[k]];
      }
      rest := rest - {k};
    }
    assert lower - {} == lower;
  }

  /** The entries are in strictly ascending description order. */
  predicate Sorted(rs: seq<KeyMap>) {
    forall i, j :: 0 <= i < j < |rs| ==> DescLess(rs[i].description, rs[j].description)
  }

  /** Every listed key is a key of `done` with the entry's description. */
  predicate EntriesFrom(rs: seq<KeyMap>, m: Mappings, done: set<KeyId>) {
    forall i, j :: 0 <= i < |rs| && 0 <= j < |rs[i].keyIds| ==>
      rs[i].keyIds[j] in done && rs[i].keyIds[j] in m && m[rs[i].keyIds[j]] == rs[i].description
  }

  /** No entry is empty or lists a key twice. */
  predicate ProperEntries(rs: seq<KeyMap>) {
    && (forall i :: 0 <= i < |rs| ==> rs[i].keyIds != [])
    && (forall i, j1, j2 :: 0 <= i < |rs| && 0 <= j1 < j2 < |rs[i].keyIds| ==> rs[i].keyIds[j1] != rs[i].keyIds[j2])
  }

  predicate Listed(rs: seq<KeyMap>, k: KeyId) {
    exists i, j :: 0 <= i < |rs| && 0 <= j < |rs[i].keyIds| && rs[i].keyIds[j] == k
  }

  /** The reversal of the keys in `done`, as far as the loop has got. */
  predicate ReversesSome(rs: seq<KeyMap>, m: Mappings, done: set<KeyId>) {
    && Sorted(rs) && ProperEntries(rs) && EntriesFrom(rs, m, done)
    && forall k :: k in done ==> Listed(rs, k)
  }

  /** What ReversedKeyMaps::from produces from `m`. */
  predicate Reverses(rs: seq<KeyMap>, m: Mappings) {
    ReversesSome(rs, m, m.Keys)
  }

  /** The entry with a description, if there is one: the ordered map's get_mut. */
  function Find(rs: seq<KeyMap>, d: KeyDesc): (r: Option<nat>)
    ensures r.Some? ==> r.value < |rs| && rs[r.value].description == d
    ensures r.None? ==> forall i :: 0 <= i < |rs| ==> rs[i].description != d
    decreases |rs|
  {
    if rs == [] then None
    else if rs[0].description == d then Some(0)
    else match Find(rs[1..], d)
      case None => None
      case Some(i) => Some(i + 1)
  }

  /** Where the ordered map inserts a new description: after every smaller one. */
  function InsertPos(rs: seq<KeyMap>, d: KeyDesc): (p: nat)
    ensures p <= |rs|
    decreases |rs|
  {
    if rs == [] || DescLess(d, rs[0].description) then 0 else 1 + InsertPos(rs[1..], d)
  }

  /** In sorted entries without `d`, the smaller descriptions come before the insertion point, the larger after it. */
  lemma {:induction false} InsertPosSpec(rs: seq<KeyMap>, d: KeyDesc)
    requires Sorted(rs) && forall i :: 0 <= i < |rs| ==> rs[i].description != d
    ensures forall i :: 0 <= i < InsertPos(rs, d) ==> DescLess(rs[i].description, d)
    ensures forall i :: InsertPos(rs, d) <= i < |rs| ==> DescLess(d, rs[i].description)
    decreases |rs|
  {
    if rs == [] {
    } else if DescLess(d, rs[0].description) {
      forall i | 0 < i < |rs| ensures DescLess(d, rs[i].description) {
        DescOrder(d, rs[0].description, rs[i].description);
      }
    } else {
      DescOrder(d, rs[0].description, d);
      InsertPosSpec(rs[1..], d);
      forall i | 1 <= i < |rs| ensures rs[i] == rs[1..][i - 1] {}
    }
  }

  /** The ordered map's insert of an entry with a new description. */
  function InsertSorted(rs: seq<KeyMap>, e: KeyMap): seq<KeyMap> {
    var p := InsertPos(rs, e.description);
    rs[..p] + [e] + rs[p..]
  }

  lemma {:induction false} InsertSortedKeepsOrder(rs: seq<KeyMap>, e: KeyMap)
    requires Sorted(rs) && forall i :: 0 <= i < |rs| ==> rs[i].description != e.description
    ensures Sorted(InsertSorted(rs, e))
  {
    var p := InsertPos(rs, e.description);
    InsertPosSpec(rs, e.description);
    var r := InsertSorted(rs, e);
    forall i, j | 0 <= i < j < |r| ensures DescLess(r[i].description, r[j].description) {
      if i < p && j > p {
        DescOrder(r[i].description, e.description, r[j].description);
      }
    }
  }

  /** A key whose description has an entry joins the end of that entry. */
  lemma {:induction false} AppendKeyStep(rs: seq<KeyMap>, m: Mappings, done: set<KeyId>, k: KeyId, i: nat)
    requires ReversesSome(rs, m, done) && k in m && k !in done
    requires i < |rs| && rs[i].description == m[k]
    ensures ReversesSome(rs[i := rs[i].(keyIds := rs[i].keyIds + [k])], m, done + {k})
  {
    var r := rs[i := rs[i].(keyIds := rs[i].keyIds + [k])];
    assert Sorted(r);
    assert ProperEntries(r);
    assert EntriesFrom(r, m, done + {k});
    assert Listed(r, k) by {
      assert r[i].keyIds[|rs[i].keyIds|] == k;
    }
    forall k' | k' in done ensures Listed(r, k') {
      var i', j :| 0 <= i' < |rs| && 0 <= j < |rs[i'].keyIds| && rs[i'].keyIds[j] == k';
      assert r[i'].keyIds[j] == k';
    }
  }

  /** A key whose description has no entry starts a new entry in order. */
  lemma {:induction false} NewEntryStep(rs: seq<KeyMap>, m: Mappings, done: set<KeyId>, k: KeyId)
    requires ReversesSome(rs, m, done) && k in m && k !in done
    requires forall i :: 0 <= i < |rs| ==> rs[i].description != m[k]
    ensures ReversesSome(InsertSorted(rs, KeyMap([k], m[k])), m, done + {k})
  {
    var e := KeyMap([k], m[k]);
    var r := InsertSorted(rs, e);
    var p := InsertPos(rs, e.description);
    InsertSortedKeepsOrder(rs, e);
    InsertKeepsEntries(rs, m, done, k);
    assert Listed(r, k) by {
      InsertSortedAt(rs, e);
      assert r[p].keyIds[0] == k;
    }
    forall k' | k' in done ensures Listed(r, k') {
      InsertKeepsListed(rs, e, k');
    }
  }

  lemma {:induction false} InsertKeepsEntries(rs: seq<KeyMap>, m: Mappings, done: set<KeyId>, k: KeyId)
    requires ProperEntries(rs) && EntriesFrom(rs, m, done) && k in m
    ensures ProperEntries(InsertSorted(rs, KeyMap([k], m[k])))
    ensures EntriesFrom(InsertSorted(rs, KeyMap([k], m[k])), m, done + {k})
  {
    InsertSortedAt(rs, KeyMap([k], m[k]));
  }

  lemma {:induction false} InsertKeepsListed(rs: seq<KeyMap>, e: KeyMap, k: KeyId)
    requires Listed(rs, k)
    ensures Listed(InsertSorted(rs, e), k)
  {
    var r, p := InsertSorted(rs, e), InsertPos(rs, e.description);
    InsertSortedAt(rs, e);
    var i, j :| 0 <= i < |rs| && 0 <= j < |rs[i].keyIds| && rs[i].keyIds[j] == k;
    if i < p {
      assert r[i].keyIds[j] == k;
    } else {
      assert r[i + 1].keyIds[j] == k;
    }
  }

  /** The insert puts the entry at the insertion point and shifts the later entries up by one. */
  lemma {:induction false} InsertSortedAt(rs: seq<KeyMap>, e: KeyMap)
    ensures var r, p := InsertSorted(rs, e), InsertPos(rs, e.description);
      && |r| == |rs| + 1 && r[p] == e
      && (forall i :: 0 <= i < p ==> r[i] == rs[i])
      && (forall i :: p < i < |r| ==> r[i] == rs[i - 1])
  {
  }

  /**
   * ReversedKeyMaps::from: walking the map's entries in any order, each
   * key joins its description's entry, or starts a new entry in order.
   */
  method Reverse(m: Mappings) returns (rs: seq<KeyMap>)
    ensures Reverses(rs, m)
  {
    rs := [];
    var rest := m.Keys;
    while rest != {}
      invariant rest <= m.Keys
      invariant ReversesSome(rs, m, m.Keys - rest)
      decreases rest
    {
      var k :| k in rest;
      assert (m.Keys - rest) + {k} == m.Keys - (rest - {k});
      var d := m[k];
      var found := Find(rs, d);
      if found.Some? {
        var i := found.value;
        AppendKeyStep(rs, m, m.Keys - rest, k, i);
        rs := rs[i := rs[i].(keyIds := rs[i].keyIds + [k])];
      } else {
        NewEntryStep(rs, m, m.Keys - rest, k);
        rs := InsertSorted(rs, KeyMap([k], d));
      }
      rest := rest - {k};
    }
  }

  /**
   * The reversal sends each description of the map to exactly the keys
   * that had it, each once, and every key appears under exactly one
   * entry, the one with its description; there is an entry for each
   * description and no other.
   */
  lemma {:induction false} ReversedSpec(rs: seq<KeyMap>, m: Mappings)
    requires Reverses(rs, m)
    ensures forall i :: 0 <= i < |rs| ==>
      (set j | 0 <= j < |rs[i].keyIds| :: rs[i].keyIds[j]) == (set k | k in m && m[k] == rs[i].description)
    ensures forall k :: k in m ==> exists i :: 0 <= i < |rs| && rs[i].description == m[k]
    ensures forall i, i', j, j' ::
      (0 <= i < |rs| && 0 <= i' < |rs| && 0 <= j < |rs[i].keyIds| && 0 <= j' < |rs[i'].keyIds|
       && rs[i].keyIds[j] == rs[i'].keyIds[j']) ==> i == i' && j == j'
    ensures (set i | 0 <= i < |rs| :: rs[i].description) == m.Values
  {
    forall i, i', j, j' | 0 <= i < |rs| && 0 <= i' < |rs| && 0 <= j < |rs[i].keyIds| && 0 <= j' < |rs[i'].keyIds|
      && rs[i].keyIds[j] == rs[i'].keyIds[j']
      ensures i == i' && j == j'
    {
      if i < i' {
        DescOrder(rs[i].description, rs[i].description, rs[i].description);
      } else if i' < i {
        DescOrder(rs[i'].description, rs[i'].description, rs[i'].description);
      }
    }
    forall i | 0 <= i < |rs|
      ensures (set j | 0 <= j < |rs[i].keyIds| :: rs[i].keyIds[j]) == (set k | k in m && m[k] == rs[i].description)
    {
      forall k | k in m && m[k] == rs[i].description
        ensures k in (set j | 0 <= j < |rs[i].keyIds| :: rs[i].keyIds[j])
      {
        var i', j :| 0 <= i' < |rs| && 0 <= j < |rs[i'].keyIds| && rs[i'].keyIds[j] == k;
        if i' != i {
          if i < i' {
            DescOrder(rs[i].description, rs[i].description, rs[i].description);
          } else {
            DescOrder(rs[i'].description, rs[i'].description, rs[i'].description);
          }
        }
      }
    }
    forall k | k in m ensures exists i :: 0 <= i < |rs| && rs[i].description == m[k] {
      var i, j :| 0 <= i < |rs| && 0 <= j < |rs[i].keyIds| && rs[i].keyIds[j] == k;
    }
    forall v | v in m.Values ensures v in (set i | 0 <= i < |rs| :: rs[i].description) {
      var k :| k in m && m[k] == v;
      var i, j :| 0 <= i < |rs| && 0 <= j < |rs[i].keyIds| && rs[i].keyIds[j] == k;
    }
    forall i | 0 <= i < |rs| ensures rs[i].description in m.Values {
      assert rs[i].keyIds[0] in m;
    }
  }

  /** The help key the root component adds to every map, ahead of the others. */
  function HelpKey(): KeyId {
    FromCode(F(2))
  }

  function HelpDesc(): KeyDesc {
    WithPrio(DescFrom("toggle help"), -1)
  }

  /**
   * Priority -1 puts the help key first: when every other description has
   * a priority of at least 0, the first entry of the reversed map is the
   * help description with the help key alone.
   */
  lemma {:induction false} HelpKeyFirst(m: Mappings, rs: seq<KeyMap>)
    requires forall k :: k in m ==> m[k].prio >= 0
    requires Reverses(rs, Insert(m, HelpKey(), HelpDesc()))
    ensures rs != [] && rs[0] == KeyMap([HelpKey()], HelpDesc())
  {
    var m' := Insert(m, HelpKey(), HelpDesc());
    var i, j := ListedAt(rs, m', HelpKey());
    EntryDescription(rs, m', i, j);
    EntryDescription(rs, m', 0, 0);
    if i > 0 {
      assert DescLess(rs[0].description, rs[i].description);
      var k0 := rs[0].keyIds[0];
      if k0 == HelpKey() {
        DescOrder(rs[0].description, rs[0].description, rs[0].description);
      }
      assert false;
    }
    var ids := rs[0].keyIds;
    forall j' | 0 <= j' < |ids| ensures ids[j'] == HelpKey() {
      EntryDescription(rs, m', 0, j');
    }
    SingleKey(ids, HelpKey());
  }

  /** Distinct keys that are all the same key are that key once. */
  lemma {:induction false} SingleKey(ids: seq<KeyId>, k: KeyId)
    requires ids != [] && forall j :: 0 <= j < |ids| ==> ids[j] == k
    requires forall j1, j2 :: 0 <= j1 < j2 < |ids| ==> ids[j1] != ids[j2]
    ensures ids == [k]
  {
    if |ids| > 1 {
      FirstTwoDiffer(ids);
      assert false;
    }
  }

  lemma {:induction false} FirstTwoDiffer(ids: seq<KeyId>)
    requires |ids| > 1 && forall j1, j2 :: 0 <= j1 < j2 < |ids| ==> ids[j1] != ids[j2]
    ensures ids[0] != ids[1]
  {
  }

  lemma {:induction false} EntryDescription(rs: seq<KeyMap>, m: Mappings, i: nat, j: nat)
    requires Reverses(rs, m) && i < |rs| && j < |rs[i].keyIds|
    ensures rs[i].keyIds[j] in m && m[rs[i].keyIds[j]] == rs[i].description
  {
  }

  lemma {:induction false} ListedAt(rs: seq<KeyMap>, m: Mappings, k: KeyId) returns (i: nat, j: nat)
    requires Reverses(rs, m) && k in m
    ensures i < |rs| && j < |rs[i].keyIds| && rs[i].keyIds[j] == k
  {
    i, j :| 0 <= i < |rs| && 0 <= j < |rs[i].keyIds| && rs[i].keyIds[j] == k;
  }

  /** The text of a key code: ':' as "<colon>", the arrows as arrows. */
  function KeyText(code: KeyCode): string {
    match code
    case Char(c) => if c == ':' then "<colon>" else [c]
    case Up => "\U{2191}"
    case Down => "\U{2193}"
    case Left => "\U{2190}"
    case Right => "\U{2192}"
    case Named(name) => name
  }

  /** The modifiers' names in the order of their flags: Shift, Ctrl, Alt. */
  function ModifierNames(m: KeyModifiers): seq<string> {
    (if m.shift then ["Shift"] else []) + (if m.control then ["Ctrl"] else []) + (if m.alt then ["Alt"] else [])
  }

  /** The parts joined with a separator between each two. */
  function JoinWith(parts: seq<string>, sep: string): string
    decreases |parts|
  {
    if parts == [] then []
    else if |parts| == 1 then parts[0]
    else parts[0] + sep + JoinWith(parts[1..], sep)
  }

  /** Display for KeyId: the modifiers joined by "+", then "-" and the key; the key alone without modifiers. */
  function KeyIdString(id: KeyId): string {
    var modifiers := JoinWith(ModifierNames(id.keyModifiers), "+");
    if modifiers == [] then KeyText(id.keyCode) else modifiers + "-" + KeyText(id.keyCode)
  }

  /** A key is written as its key text exactly when it has no modifiers. */
  lemma {:induction false} KeyIdStringSpec(id: KeyId)
    ensures KeyIdString(id) == KeyText(id.keyCode) <==> id.keyModifiers == NoModifiers
    ensures KeyIdString(KeyId(Char('c'), KeyModifiers(false, true, false))) == "Ctrl-c"
    ensures KeyIdString(KeyId(Up, KeyModifiers(true, true, false))) == "Shift+Ctrl-\U{2191}"
    ensures KeyIdString(FromChar(':')) == "<colon>"
  {
    var names := ModifierNames(id.keyModifiers);
    if id.keyModifiers != NoModifiers {
      assert names != [] && |names[0]| >= 3;
      assert |JoinWith(names, "+")| >= 3;
    }
  }

  /** key_ids_to_string: several keys joined by ", ", one key as itself, none as "". */
  function KeyIdsToString(km: KeyMap): string {
    if |km.keyIds| > 1 then JoinWith(seq(|km.keyIds|, i requires 0 <= i < |km.keyIds| => KeyIdString(km.keyIds[i])), ", ")
    else if km.keyIds != [] then KeyIdString(km.keyIds[0])
    else ""
  }

  /** The three cases are one: the keys' texts joined by ", ". */
  lemma {:induction false} KeyIdsToStringIsJoin(km: KeyMap)
    ensures KeyIdsToString(km) == JoinWith(seq(|km.keyIds|, i requires 0 <= i < |km.keyIds| => KeyIdString(km.keyIds[i])), ", ")
    ensures km.keyIds == [] ==> KeyIdsToString(km) == ""
    ensures |km.keyIds| == 1 ==> KeyIdsToString(km) == KeyIdString(km.keyIds[0])
  {
  }
}
