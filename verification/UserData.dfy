/** internal/infra/libvirt/libvirt_client.go, lines 448 to 458: the launch parameters are
    put into the cloud-init text by one ReplaceAll per entry of a Go map, whose iteration
    order is random. When does the order not matter? */
module UserData {

  // ------------------------------------------------------ strings.ReplaceAll

  function ReplaceAll(s: string, pattern: string, value: string): string
    requires pattern != []
  {
    if s == [] then []
    else if pattern <= s then value + ReplaceAll(s[|pattern|..], pattern, value)
    else [s[0]] + ReplaceAll(s[1..], pattern, value)
  }

  /** No occurrence of the pattern begins inside the head. */
  ghost predicate NoStart(head: string, tail: string, pattern: string) {
    forall i :: 0 <= i < |head| ==> !(pattern <= (head + tail)[i..])
  }

  lemma {:induction false} ReplaceSkips(head: string, tail: string, pattern: string, value: string)
    requires pattern != [] && NoStart(head, tail, pattern)
    ensures ReplaceAll(head + tail, pattern, value) == head + ReplaceAll(tail, pattern, value)
  {
    if head == [] {
      assert head + tail == tail;
    } else {
      var s := head + tail;
      assert s[0..] == s;
      assert s[1..] == head[1..] + tail;
      forall i | 0 <= i < |head[1..]|
        ensures !(pattern <= (head[1..] + tail)[i..])
      {
        assert (head[1..] + tail)[i..] == s[i + 1..];
      }
      ReplaceSkips(head[1..], tail, pattern, value);
      assert [head[0]] + head[1..] == head;
    }
  }

  lemma ReplaceHead(tail: string, pattern: string, value: string)
    requires pattern != []
    ensures ReplaceAll(pattern + tail, pattern, value) == value + ReplaceAll(tail, pattern, value)
  {
    assert (pattern + tail)[|pattern|..] == tail;
    assert pattern + tail != [];
  }

  lemma {:induction false} ReplaceByItself(s: string, pattern: string)
    requires pattern != []
    ensures ReplaceAll(s, pattern, pattern) == s
  {
    if s != [] {
      if pattern <= s {
        ReplaceByItself(s[|pattern|..], pattern);
        assert pattern + s[|pattern|..] == s;
      } else {
        ReplaceByItself(s[1..], pattern);
        assert [s[0]] + s[1..] == s;
      }
    }
  }

  lemma {:induction false} ReplaceLength(s: string, pattern: string, value: string)
    requires pattern != []
    ensures |value| >= |pattern| ==> |ReplaceAll(s, pattern, value)| >= |s|
    ensures |value| <= |pattern| ==> |ReplaceAll(s, pattern, value)| <= |s|
  {
    if s != [] {
      if pattern <= s {
        ReplaceLength(s[|pattern|..], pattern, value);
      } else {
        ReplaceLength(s[1..], pattern, value);
      }
    }
  }

  /** A text that holds the pattern is changed by replacing it with anything else. */
  lemma {:induction false} ReplaceChanges(s: string, pattern: string, value: string, i: nat)
    requires pattern != [] && value != pattern
    requires i < |s| && pattern <= s[i..]
    ensures ReplaceAll(s, pattern, value) != s
  {
    if pattern <= s {
      var rest := s[|pattern|..];
      ReplaceLength(rest, pattern, value);
      var r := ReplaceAll(s, pattern, value);
      assert r == value + ReplaceAll(rest, pattern, value);
      assert r[..|value|] == value;
      assert s[..|pattern|] == pattern;
    } else {
      assert s[0..] == s;
      assert s[1..][i - 1..] == s[i..];
      ReplaceChanges(s[1..], pattern, value, i - 1);
      assert ReplaceAll(s, pattern, value)[1..] == ReplaceAll(s[1..], pattern, value);
    }
  }

  // ---------------------------------------------- templates and their meaning

  function Placeholder(name: string): (p: string)
    ensures |p| == |name| + 4
  {
    "{{" + name + "}}"
  }

  /** A template as its author sees it: fixed text and named slots. */
  datatype Token = Lit(text: string) | Slot(name: string)

  /** What a token shows once the slots in `done` have been replaced. */
  function Shown(token: Token, vals: map<string, string>, done: set<string>): string {
    match token
    case Lit(text) => text
    case Slot(name) => if name in done && name in vals then vals[name] else Placeholder(name)
  }

  function Show(tokens: seq<Token>, vals: map<string, string>, done: set<string>): string {
    if tokens == [] then [] else Shown(tokens[0], vals, done) + Show(tokens[1..], vals, done)
  }

  /** The text the template is written as. */
  function Flatten(tokens: seq<Token>): string {
    Show(tokens, map[], {})
  }

  /** Simultaneous substitution: every slot that has a value shows it. */
  function Fill(tokens: seq<Token>, vals: map<string, string>): string {
    Show(tokens, vals, vals.Keys)
  }

  lemma {:induction false} NothingDone(tokens: seq<Token>, vals: map<string, string>)
    ensures Show(tokens, vals, {}) == Flatten(tokens)
  {
    if tokens != [] {
      NothingDone(tokens[1..], vals);
    }
  }

  predicate BraceFree(name: string) {
    '{' !in name && '}' !in name
  }

  /** Text in which no "{{" begins, whatever follows it. */
  predicate Quiet(text: string) {
    && (forall i :: 0 <= i < |text| - 1 ==> !(text[i] == '{' && text[i + 1] == '{'))
    && (text != [] ==> text[|text| - 1] != '{')
  }

  predicate TokenOk(token: Token) {
    match token
    case Lit(text) => Quiet(text)
    case Slot(name) => BraceFree(name)
  }

  predicate WellFormed(tokens: seq<Token>) {
    forall t :: t in tokens ==> TokenOk(t)
  }

  predicate NamesOk(vals: map<string, string>) {
    forall n :: n in vals ==> BraceFree(n)
  }

  /** Some suffix of the value is the beginning of the pattern, or begins with it. */
  predicate Overlaps(value: string, pattern: string) {
    exists i :: 0 <= i < |value| && (value[i..] <= pattern || pattern <= value[i..])
  }

  /** No value can complete, or contain, the placeholder of another name; a name whose value
      is its own placeholder does not count, since replacing it changes nothing. */
  predicate Safe(vals: map<string, string>) {
    forall a, b :: a in vals && b in vals && a != b && vals[b] != Placeholder(b) ==>
      !Overlaps(vals[a], Placeholder(b))
  }

  // ------------------------------------------- one replacement on a shown text

  /** An occurrence of a placeholder begins with "{{". */
  lemma OpensAt(s: string, name: string, i: nat)
    requires i <= |s| && Placeholder(name) <= s[i..]
    ensures i + 1 < |s| && s[i] == '{' && s[i + 1] == '{'
  {
    assert s[i..][0] == s[i] && s[i..][1] == s[i + 1];
  }

  lemma QuietHasNoStart(text: string, tail: string, name: string)
    requires Quiet(text)
    ensures NoStart(text, tail, Placeholder(name))
  {
    forall i | 0 <= i < |text|
      ensures !(Placeholder(name) <= (text + tail)[i..])
    {
      if Placeholder(name) <= (text + tail)[i..] {
        OpensAt(text + tail, name, i);
      }
    }
  }

  lemma OtherSlotHasNoStart(slot: string, tail: string, name: string)
    requires BraceFree(slot) && BraceFree(name) && slot != name
    ensures NoStart(Placeholder(slot), tail, Placeholder(name))
  {
    var s := Placeholder(slot) + tail;
    PlaceholderCloses(slot, tail);
    forall i | 0 <= i < |Placeholder(slot)|
      ensures !(Placeholder(name) <= s[i..])
    {
      if Placeholder(name) <= s[i..] {
        OpensAt(s, name, i);
        SamePlaceholder(slot, tail, name);
      }
    }
  }

  /** The first closing brace after the opening pair. */
  ghost predicate FirstClose(s: string, k: nat) {
    2 <= k < |s| && s[k] == '}' && forall j :: 2 <= j < k ==> s[j] != '}'
  }

  lemma PlaceholderCloses(name: string, tail: string)
    requires BraceFree(name)
    ensures FirstClose(Placeholder(name) + tail, 2 + |name|)
    ensures (Placeholder(name) + tail)[2..2 + |name|] == name
    ensures forall j :: 0 < j < |Placeholder(name)| ==>
              !((Placeholder(name) + tail)[j] == '{' && j + 1 < |Placeholder(name)|
                && (Placeholder(name) + tail)[j + 1] == '{')
    ensures forall j :: 2 <= j < |Placeholder(name)| ==> (Placeholder(name) + tail)[j] != '{'
  {
    var s := Placeholder(name) + tail;
    forall j | 2 <= j < 2 + |name|
      ensures s[j] == name[j - 2]
    {
    }
  }

  /** Brace-free names are read off unambiguously after "{{". */
  lemma SamePlaceholder(slot: string, tail: string, name: string)
    requires BraceFree(slot) && BraceFree(name)
    requires exists i :: 0 <= i < |Placeholder(slot)| && Placeholder(name) <= (Placeholder(slot) + tail)[i..]
    ensures slot == name
  {
    var p, s := Placeholder(name), Placeholder(slot) + tail;
    var i :| 0 <= i < |Placeholder(slot)| && p <= s[i..];
    OpensAt(s, name, i);
    PlaceholderCloses(slot, tail);
    PlaceholderCloses(name, []);
    assert p + [] == p;
    assert i == 0 && s[0..] == s;
    assert forall j :: 0 <= j < |p| ==> p[j] == s[j];
    assert FirstClose(s, 2 + |name|);
    assert s[2..2 + |name|] == p[2..2 + |name|];
  }

  lemma StartInValue(value: string, tail: string, pattern: string, i: nat)
    requires i < |value| && pattern <= (value + tail)[i..]
    ensures Overlaps(value, pattern)
  {
    var s := value + tail;
    if |pattern| <= |value| - i {
      assert s[i..][..|pattern|] == value[i..][..|pattern|];
      assert pattern <= value[i..];
    } else {
      assert s[i..][..|value| - i] == value[i..];
      assert pattern[..|value| - i] == value[i..];
      assert value[i..] <= pattern;
    }
  }

  lemma SafeValueHasNoStart(value: string, tail: string, pattern: string)
    requires !Overlaps(value, pattern)
    ensures NoStart(value, tail, pattern)
  {
    forall i | 0 <= i < |value|
      ensures !(pattern <= (value + tail)[i..])
    {
      if pattern <= (value + tail)[i..] {
        StartInValue(value, tail, pattern, i);
      }
    }
  }

  /** Replacing one more name turns the text with `done` shown into the text with one more shown. */
  lemma {:induction false} ReplaceShowsOneMore(tokens: seq<Token>, vals: map<string, string>, done: set<string>,
                                               name: string)
    requires WellFormed(tokens) && NamesOk(vals) && Safe(vals)
    requires name in vals && name !in done
    ensures ReplaceAll(Show(tokens, vals, done), Placeholder(name), vals[name]) == Show(tokens, vals, done + {name})
  {
    if vals[name] == Placeholder(name) {
      ReplaceByItself(Show(tokens, vals, done), Placeholder(name));
      SameShow(tokens, vals, done, name);
    } else if tokens != [] {
      var p := Placeholder(name);
      var head, tail := Shown(tokens[0], vals, done), Show(tokens[1..], vals, done);
      assert tokens[0] in tokens && TokenOk(tokens[0]);
      assert forall t :: t in tokens[1..] ==> t in tokens;
      ReplaceShowsOneMore(tokens[1..], vals, done, name);
      if tokens[0] == Slot(name) {
        ReplaceHead(tail, p, vals[name]);
      } else {
        match tokens[0] {
          case Lit(text) =>
            QuietHasNoStart(text, tail, name);
          case Slot(other) =>
            if other in done && other in vals {
              SafeValueHasNoStart(vals[other], tail, p);
            } else {
              OtherSlotHasNoStart(other, tail, name);
            }
        }
        ReplaceSkips(head, tail, p, vals[name]);
      }
    }
  }

  lemma {:induction false} SameShow(tokens: seq<Token>, vals: map<string, string>, done: set<string>, name: string)
    requires name in vals && vals[name] == Placeholder(name)
    ensures Show(tokens, vals, done) == Show(tokens, vals, done + {name})
  {
    if tokens != [] {
      SameShow(tokens[1..], vals, done, name);
    }
  }

  // ------------------------------------------------------ orders of the keys

  predicate NoRepeat(order: seq<string>) {
    forall i, j :: 0 <= i < j < |order| ==> order[i] != order[j]
  }

  ghost predicate IsOrder(order: seq<string>, names: set<string>) {
    NoRepeat(order) && forall n :: n in names <==> n in order
  }

  /** One slot followed by quiet text is left alone by every other name. */
  lemma OthersSkip(slot: string, rest: string, name: string, value: string)
    requires BraceFree(slot) && BraceFree(name) && slot != name && Quiet(rest)
    ensures ReplaceAll(Placeholder(slot) + rest, Placeholder(name), value) == Placeholder(slot) + rest
  {
    OtherSlotHasNoStart(slot, rest, name);
    ReplaceSkips(Placeholder(slot), rest, Placeholder(name), value);
    QuietStays(rest, name, value);
  }

  lemma QuietStays(rest: string, name: string, value: string)
    requires Quiet(rest)
    ensures ReplaceAll(rest, Placeholder(name), value) == rest
  {
    QuietHasNoStart(rest, [], name);
    ReplaceSkips(rest, [], Placeholder(name), value);
    assert rest + [] == rest;
  }

  /** The text after the slot that makes an overlap visible. */
  function Completion(value: string, pattern: string, i: nat): string
    requires i < |value|
  {
    if |pattern| <= |value| - i then [] else pattern[|value| - i..]
  }

  lemma CompletionIsQuiet(value: string, name: string, i: nat)
    requires i < |value| && BraceFree(name)
    ensures Quiet(Completion(value, Placeholder(name), i))
  {
    var p := Placeholder(name);
    var c := Completion(value, p, i);
    if c != [] {
      var from := |value| - i;
      forall k | 0 <= k < |c| - 1
        ensures !(c[k] == '{' && c[k + 1] == '{')
      {
        assert c[k + 1] == p[from + k + 1] && from + k + 1 >= 2;
        assert from + k + 1 < 2 + |name| ==> p[from + k + 1] == name[from + k + 1 - 2];
      }
      assert c[|c| - 1] == p[|p| - 1] == '}';
    }
  }

  lemma CompletionShowsPattern(value: string, pattern: string, i: nat)
    requires i < |value| && (value[i..] <= pattern || pattern <= value[i..])
    ensures pattern <= (value + Completion(value, pattern, i))[i..]
  {
    var c := Completion(value, pattern, i);
    assert (value + c)[i..] == value[i..] + c;
    if |pattern| > |value| - i {
      assert pattern == value[i..] + c;
    }
  }

  /** Some order of a finite set of names. */
  ghost function SomeOrder(names: set<string>): (order: seq<string>)
    ensures IsOrder(order, names)
  {
    if names == {} then []
    else
      var n :| n in names;
      var rest := SomeOrder(names - {n});
      assert n !in rest;
      [n] + rest
  }

  lemma QuietHasNoOverlap(v: string, name: string)
    requires Quiet(v)
    ensures !Overlaps(v, Placeholder(name))
  {
    var p := Placeholder(name);
    forall i | 0 <= i < |v|
      ensures !(v[i..] <= p) && !(p <= v[i..])
    {
      assert v[i..][0] == v[i];
      assert |v| - i == 1 ==> v[i] == v[|v| - 1];
      assert |v| - i >= 2 ==> v[i..][1] == v[i + 1];
    }
  }

  /** A condition easy to check: values like JSON text, in which no "{{" begins, are safe. */
  lemma QuietValuesAreSafe(vals: map<string, string>)
    requires forall n :: n in vals ==> Quiet(vals[n])
    ensures Safe(vals)
  {
    hide Overlaps, Quiet, Placeholder;
    forall a, b | a in vals && b in vals
      ensures !Overlaps(vals[a], Placeholder(b))
    {
      QuietHasNoOverlap(vals[a], b);
    }
  }

  // ------------------------------------------------------------- the program

  function UpperChar(c: char): char {
    if 'a' <= c <= 'z' then (c as int - 32) as char else c
  }

  /** strings.ToUpper on ASCII keys. */
  function ToUpper(s: string): string {
    if s == [] then [] else [UpperChar(s[0])] + ToUpper(s[1..])
  }

  /** name is key with each letter from 'a' to 'z' replaced by the capital at its place in the
      alphabet, and nothing else changed. */
  predicate Capitals(key: string, name: string) {
    && |name| == |key|
    && forall i :: 0 <= i < |key| ==>
         if 'a' <= key[i] <= 'z' then 'A' <= name[i] <= 'Z' && name[i] - 'A' == key[i] - 'a' else name[i] == key[i]
  }

  lemma {:induction false} ToUpperIsCapitals(key: string, name: string)
    ensures name == ToUpper(key) <==> Capitals(key, name)
  {
    if key != [] && name != [] {
      ToUpperIsCapitals(key[1..], name[1..]);
      assert name == [name[0]] + name[1..];
      assert Capitals(key, name) ==> Capitals(key[1..], name[1..]);
      if name == ToUpper(key) {
        assert name[1..] == ToUpper(key[1..]);
        forall i | 0 < i < |key| ensures name[i] == name[1..][i - 1] && key[i] == key[1..][i - 1] {}
      }
    }
  }

  /** Keys that name the same placeholder have the same value. */
  predicate Agreeing(params: map<string, string>) {
    forall j, k :: j in params && k in params && ToUpper(j) == ToUpper(k) ==> params[j] == params[k]
  }

  /** Where two keys name one placeholder, no value of theirs overlaps it. */
  predicate Tidy(params: map<string, string>) {
    forall j, k :: j in params && k in params && j != k && ToUpper(j) == ToUpper(k) ==>
      !Overlaps(params[j], Placeholder(ToUpper(j)))
  }

  predicate KeysOk(params: map<string, string>) {
    forall k :: k in params ==> BraceFree(ToUpper(k))
  }

  /** The entries by placeholder name. */
  function Uppers(params: map<string, string>): map<string, string>
    requires Agreeing(params)
  {
    map k | k in params :: ToUpper(k) := params[k]
  }

  /** One ReplaceAll per key, in a given order of the keys. */
  function Apply(text: string, params: map<string, string>, order: seq<string>): string
    requires forall k :: k in order ==> k in params
    decreases |order|
  {
    if order == [] then text
    else Apply(ReplaceAll(text, Placeholder(ToUpper(order[0])), params[order[0]]), params, order[1..])
  }

  lemma {:induction false} ApplyOneMore(text: string, params: map<string, string>, order: seq<string>, key: string)
    requires key in params && forall k :: k in order ==> k in params
    ensures Apply(text, params, order + [key]) ==
            ReplaceAll(Apply(text, params, order), Placeholder(ToUpper(key)), params[key])
    decreases |order|
  {
    if order == [] {
      var one := ReplaceAll(text, Placeholder(ToUpper(key)), params[key]);
      assert order + [key] == [key] && [key][1..] == [];
      assert Apply(one, params, []) == one;
    } else {
      assert (order + [key])[1..] == order[1..] + [key];
      ApplyOneMore(ReplaceAll(text, Placeholder(ToUpper(order[0])), params[order[0]]), params, order[1..], key);
    }
  }

  lemma {:induction false} ApplyAppend(text: string, params: map<string, string>, x: seq<string>, y: seq<string>)
    requires forall k :: k in x ==> k in params
    requires forall k :: k in y ==> k in params
    ensures forall k :: k in x + y ==> k in params
    ensures Apply(text, params, x + y) == Apply(Apply(text, params, x), params, y)
    decreases |x|
  {
    if x == [] {
      assert x + y == y;
    } else {
      assert (x + y)[1..] == x[1..] + y;
      ApplyAppend(ReplaceAll(text, Placeholder(ToUpper(x[0])), params[x[0]]), params, x[1..], y);
    }
  }

  lemma ApplyOneKey(text: string, params: map<string, string>, key: string)
    requires key in params
    ensures Apply(text, params, [key]) == ReplaceAll(text, Placeholder(ToUpper(key)), params[key])
  {
    ApplyOneMore(text, params, [], key);
    assert [] + [key] == [key];
  }

  // ---------------------------------------- agreeing and safe: order does not matter

  lemma OverlapsItself(p: string)
    requires p != []
    ensures Overlaps(p, p)
  {
    assert p[0..] <= p;
  }

  /** A name whose value does not overlap its placeholder is gone once it has been replaced. */
  lemma {:induction false} ReplaceAgain(tokens: seq<Token>, vals: map<string, string>, done: set<string>, name: string)
    requires WellFormed(tokens) && NamesOk(vals) && Safe(vals)
    requires name in vals && name in done && !Overlaps(vals[name], Placeholder(name))
    ensures ReplaceAll(Show(tokens, vals, done), Placeholder(name), vals[name]) == Show(tokens, vals, done)
  {
    if tokens != [] {
      var p := Placeholder(name);
      var head, tail := Shown(tokens[0], vals, done), Show(tokens[1..], vals, done);
      assert tokens[0] in tokens && TokenOk(tokens[0]);
      assert forall t :: t in tokens[1..] ==> t in tokens;
      ReplaceAgain(tokens[1..], vals, done, name);
      OverlapsItself(p);
      match tokens[0] {
        case Lit(text) =>
          QuietHasNoStart(text, tail, name);
        case Slot(other) =>
          if other in done && other in vals {
            SafeValueHasNoStart(vals[other], tail, p);
          } else {
            OtherSlotHasNoStart(other, tail, name);
          }
      }
      ReplaceSkips(head, tail, p, vals[name]);
    }
  }

  function UpperSet(order: seq<string>): set<string> {
    set k | k in order :: ToUpper(k)
  }

  lemma {:induction false} KeysShowAll(tokens: seq<Token>, params: map<string, string>, done: set<string>,
                                       order: seq<string>)
    requires WellFormed(tokens) && KeysOk(params) && Tidy(params) && Agreeing(params) && Safe(Uppers(params))
    requires NoRepeat(order) && forall k :: k in order ==> k in params
    requires forall k :: k in order && ToUpper(k) in done ==> !Overlaps(params[k], Placeholder(ToUpper(k)))
    ensures Apply(Show(tokens, Uppers(params), done), params, order) ==
            Show(tokens, Uppers(params), done + UpperSet(order))
    decreases |order|
  {
    hide Show, ReplaceAll, Overlaps, Safe, ToUpper, WellFormed, Placeholder, UpperSet;
    var vals := Uppers(params);
    UpperSetFirst(order);
    if order == [] {
      assert done + UpperSet(order) == done;
    } else {
      var key, name := order[0], ToUpper(order[0]);
      assert key in order && name in vals && vals[name] == params[key];
      UpperNamesOk(params);
      if name in done {
        ReplaceAgain(tokens, vals, done, name);
        assert done + {name} == done;
      } else {
        ReplaceShowsOneMore(tokens, vals, done, name);
      }
      StillTidy(params, done, order);
      KeysShowAll(tokens, params, done + {name}, order[1..]);
      assert done + {name} + UpperSet(order[1..]) == done + UpperSet(order);
    }
  }

  lemma UpperNamesOk(params: map<string, string>)
    requires KeysOk(params) && Agreeing(params)
    ensures NamesOk(Uppers(params))
  {}

  /** A key that comes after another of its name has a value that does not overlap the placeholder. */
  lemma StillTidy(params: map<string, string>, done: set<string>, order: seq<string>)
    requires Tidy(params) && order != [] && NoRepeat(order) && forall k :: k in order ==> k in params
    requires forall k :: k in order && ToUpper(k) in done ==> !Overlaps(params[k], Placeholder(ToUpper(k)))
    ensures NoRepeat(order[1..]) && forall k :: k in order[1..] ==> k in params
    ensures forall k :: k in order[1..] && ToUpper(k) in done + {ToUpper(order[0])} ==>
              !Overlaps(params[k], Placeholder(ToUpper(k)))
  {
    hide Overlaps, ToUpper, Placeholder;
    forall k | k in order[1..]
      ensures k in order && k != order[0]
    {
      var i :| 0 <= i < |order[1..]| && order[1..][i] == k;
      assert order[i + 1] == k;
    }
    assert order[0] in order;
  }

  lemma UpperSetFirst(order: seq<string>)
    ensures UpperSet(order) == if order == [] then {} else {ToUpper(order[0])} + UpperSet(order[1..])
  {
    hide ToUpper;
    if order != [] {
      assert forall k :: k in order <==> k == order[0] || k in order[1..];
    }
  }

  /** Every order of the keys gives the simultaneous substitution. */
  lemma SafeMeansSimultaneous(tokens: seq<Token>, params: map<string, string>, order: seq<string>)
    requires WellFormed(tokens) && KeysOk(params) && Tidy(params) && Agreeing(params) && Safe(Uppers(params))
    requires IsOrder(order, params.Keys)
    ensures Apply(Flatten(tokens), params, order) == Fill(tokens, Uppers(params))
  {
    hide Show, Overlaps, Safe, ToUpper, WellFormed, Placeholder, Flatten, Apply;
    NothingDone(tokens, Uppers(params));
    KeysShowAll(tokens, params, {}, order);
    assert {} + UpperSet(order) == Uppers(params).Keys;
  }

  // ------------------------------------------------------- otherwise it does

  /** Keys of other names leave a slot and quiet text alone. */
  lemma {:induction false} OtherKeysSkip(slot: string, rest: string, params: map<string, string>, order: seq<string>)
    requires BraceFree(slot) && KeysOk(params) && Quiet(rest)
    requires forall k :: k in order ==> k in params && ToUpper(k) != slot
    ensures Apply(Placeholder(slot) + rest, params, order) == Placeholder(slot) + rest
    decreases |order|
  {
    if order != [] {
      OthersSkip(slot, rest, ToUpper(order[0]), params[order[0]]);
      OtherKeysSkip(slot, rest, params, order[1..]);
    }
  }

  /** Keys of one name leave a value that does not overlap its placeholder alone. */
  lemma {:induction false} OwnKeysSkip(value: string, rest: string, params: map<string, string>, name: string,
                                       order: seq<string>)
    requires Quiet(rest) && (order != [] ==> !Overlaps(value, Placeholder(name)))
    requires forall k :: k in order ==> k in params && ToUpper(k) == name
    ensures Apply(value + rest, params, order) == value + rest
    decreases |order|
  {
    if order != [] {
      SafeValueHasNoStart(value, rest, Placeholder(name));
      ReplaceSkips(value, rest, Placeholder(name), params[order[0]]);
      QuietStays(rest, name, params[order[0]]);
      OwnKeysSkip(value, rest, params, name, order[1..]);
    }
  }

  lemma OrderParts(x: seq<string>, y: seq<string>, a: set<string>, b: set<string>)
    requires IsOrder(x, a) && IsOrder(y, b) && a !! b
    ensures IsOrder(x + y, a + b)
  {
    forall i, j | 0 <= i < j < |x + y| ensures (x + y)[i] != (x + y)[j] {
      if i < |x| && j >= |x| { assert x[i] in x && y[j - |x|] in y; }
    }
  }

  lemma OneKeyOrder(key: string)
    ensures IsOrder([key], {key})
  {}

  /** The first key of its name to come decides what a lone slot shows. */
  lemma FirstOfItsNameWins(params: map<string, string>, j: string) returns (order: seq<string>)
    requires KeysOk(params) && j in params
    requires (exists k :: k in params && k != j && ToUpper(k) == ToUpper(j)) ==>
          !Overlaps(params[j], Placeholder(ToUpper(j)))
    ensures IsOrder(order, params.Keys)
    ensures Apply(Flatten([Slot(ToUpper(j))]), params, order) == params[j]
  {
    hide ReplaceAll, Apply, Flatten, ToUpper;
    var name := ToUpper(j);
    var others := set k | k in params && ToUpper(k) != name;
    var rivals := set k | k in params && ToUpper(k) == name && k != j;
    var x, y := SomeOrder(others), SomeOrder(rivals);
    order := x + ([j] + y);
    OneKeyOrder(j);
    OrderParts([j], y, {j}, rivals);
    OrderParts(x, [j] + y, others, {j} + rivals);
    assert others + ({j} + rivals) == params.Keys;
    var text := Placeholder(name) + [];
    LoneSlot(name);
    OtherKeysSkip(name, [], params, x);
    ApplyAppend(text, params, x, [j] + y);
    ApplyAppend(text, params, [j], y);
    ApplyOneKey(text, params, j);
    ReplaceHead([], Placeholder(name), params[j]);
    QuietStays([], name, params[j]);
    OwnKeysSkip(params[j], [], params, name, y);
    assert params[j] + [] == params[j];
  }

  lemma LoneSlot(name: string)
    ensures Flatten([Slot(name)]) == Placeholder(name) + []
  {
    assert [Slot(name)][1..] == [];
    assert Show([Slot(name)], map[], {}) == Placeholder(name) + Show([], map[], {});
  }

  /** Two keys of one name with different values: a lone slot shows the one or the other. */
  lemma CollidingValuesMatter(params: map<string, string>, j: string, k: string)
      returns (tokens: seq<Token>, one: seq<string>, two: seq<string>)
    requires KeysOk(params) && Tidy(params) && j in params && k in params
    requires ToUpper(j) == ToUpper(k) && params[j] != params[k]
    ensures WellFormed(tokens) && IsOrder(one, params.Keys) && IsOrder(two, params.Keys)
    ensures Apply(Flatten(tokens), params, one) == params[j]
    ensures Apply(Flatten(tokens), params, two) == params[k]
  {
    hide Apply, Flatten, ToUpper;
    tokens := [Slot(ToUpper(j))];
    one := FirstOfItsNameWins(params, j);
    two := FirstOfItsNameWins(params, k);
  }

  /** A value that overlaps another name's placeholder: some template comes out differently. */
  lemma UnsafeMeansOrderMatters(params: map<string, string>, j: string, k: string)
      returns (tokens: seq<Token>, one: seq<string>, two: seq<string>)
    requires KeysOk(params) && Tidy(params) && j in params && k in params && ToUpper(j) != ToUpper(k)
    requires params[k] != Placeholder(ToUpper(k)) && Overlaps(params[j], Placeholder(ToUpper(k)))
    ensures WellFormed(tokens) && IsOrder(one, params.Keys) && IsOrder(two, params.Keys)
    ensures Apply(Flatten(tokens), params, one) != Apply(Flatten(tokens), params, two)
  {
    hide ReplaceAll, Apply, Flatten, ToUpper, IsOrder, Tidy, Placeholder;
    var v, p := params[j], Placeholder(ToUpper(k));
    var i: nat :| i < |v| && (v[i..] <= p || p <= v[i..]);
    var rest := Completion(v, p, i);
    CompletionIsQuiet(v, ToUpper(k), i);
    CompletionShowsPattern(v, p, i);
    var d, e := OrdersAround(params, j, k);
    tokens, one, two := [Slot(ToUpper(j)), Lit(rest)], d + ([j] + (e + [k])), d + ([k] + ([j] + e));
    FlattenTwo(ToUpper(j), rest);
    SlotThenOther(params, j, k, rest, d, e);
    OtherThenSlot(params, j, k, rest, d, e);
    ReplaceChanges(v + rest, p, params[k], i);
  }

  /** The keys of other names but k, the other keys of j's name, and two orders made of them. */
  lemma OrdersAround(params: map<string, string>, j: string, k: string) returns (d: seq<string>, e: seq<string>)
    requires j in params && k in params && ToUpper(j) != ToUpper(k)
    ensures forall x :: x in d ==> x in params && ToUpper(x) != ToUpper(j)
    ensures forall x :: x in e ==> x in params && ToUpper(x) == ToUpper(j) && x != j
    ensures IsOrder(d + ([j] + (e + [k])), params.Keys) && IsOrder(d + ([k] + ([j] + e)), params.Keys)
  {
    hide ToUpper, IsOrder;
    var others := set x | x in params && ToUpper(x) != ToUpper(j) && x != k;
    var rivals := set x | x in params && ToUpper(x) == ToUpper(j) && x != j;
    d, e := SomeOrder(others), SomeOrder(rivals);
    Members(d, others);
    Members(e, rivals);
    TwoOrders(others, rivals, d, e, j, k);
    assert others + ({j} + (rivals + {k})) == params.Keys;
    assert others + ({k} + ({j} + rivals)) == params.Keys;
  }

  lemma Members(order: seq<string>, names: set<string>)
    requires IsOrder(order, names)
    ensures forall n :: n in order <==> n in names
  {}

  /** The slot is replaced first and the other key sees what came of it. */
  lemma SlotThenOther(params: map<string, string>, j: string, k: string, rest: string, d: seq<string>, e: seq<string>)
    requires KeysOk(params) && Tidy(params) && j in params && k in params && Quiet(rest)
    requires forall x :: x in d ==> x in params && ToUpper(x) != ToUpper(j)
    requires forall x :: x in e ==> x in params && ToUpper(x) == ToUpper(j) && x != j
    ensures forall x :: x in d + ([j] + (e + [k])) ==> x in params
    ensures Apply(Placeholder(ToUpper(j)) + rest, params, d + ([j] + (e + [k]))) ==
            ReplaceAll(params[j] + rest, Placeholder(ToUpper(k)), params[k])
  {
    hide ReplaceAll, Apply, ToUpper;
    var text := Placeholder(ToUpper(j)) + rest;
    OtherKeysSkip(ToUpper(j), rest, params, d);
    OwnThenRivals(params, j, rest, e);
    ApplyOneKey(params[j] + rest, params, k);
    ApplyAppend(params[j] + rest, params, e, [k]);
    ApplyAppend(text, params, [j], e + [k]);
    ApplyAppend(text, params, d, [j] + (e + [k]));
  }

  /** The other key comes first and finds nothing. */
  lemma OtherThenSlot(params: map<string, string>, j: string, k: string, rest: string, d: seq<string>, e: seq<string>)
    requires KeysOk(params) && Tidy(params) && j in params && k in params && Quiet(rest) && ToUpper(j) != ToUpper(k)
    requires forall x :: x in d ==> x in params && ToUpper(x) != ToUpper(j)
    requires forall x :: x in e ==> x in params && ToUpper(x) == ToUpper(j) && x != j
    ensures forall x :: x in d + ([k] + ([j] + e)) ==> x in params
    ensures Apply(Placeholder(ToUpper(j)) + rest, params, d + ([k] + ([j] + e))) == params[j] + rest
  {
    hide ReplaceAll, Apply, ToUpper;
    var text := Placeholder(ToUpper(j)) + rest;
    OtherKeysSkip(ToUpper(j), rest, params, d);
    ApplyOneKey(text, params, k);
    OthersSkip(ToUpper(j), rest, ToUpper(k), params[k]);
    OwnThenRivals(params, j, rest, e);
    ApplyAppend(text, params, [j], e);
    ApplyAppend(text, params, [k], [j] + e);
    ApplyAppend(text, params, d, [k] + ([j] + e));
  }

  lemma TwoOrders(others: set<string>, rivals: set<string>, d: seq<string>, e: seq<string>, j: string, k: string)
    requires IsOrder(d, others) && IsOrder(e, rivals) && others !! rivals && j != k
    requires {j, k} !! others && {j, k} !! rivals
    ensures IsOrder(d + ([j] + (e + [k])), others + ({j} + (rivals + {k})))
    ensures IsOrder(d + ([k] + ([j] + e)), others + ({k} + ({j} + rivals)))
  {
    hide IsOrder;
    OneKeyOrder(j);
    OneKeyOrder(k);
    OrderParts(e, [k], rivals, {k});
    OrderParts([j], e + [k], {j}, rivals + {k});
    OrderParts(d, [j] + (e + [k]), others, {j} + (rivals + {k}));
    OrderParts([j], e, {j}, rivals);
    OrderParts([k], [j] + e, {k}, {j} + rivals);
    OrderParts(d, [k] + ([j] + e), others, {k} + ({j} + rivals));
  }

  /** The slot replaced by the first key of its name, and left alone by the rest of them. */
  lemma OwnThenRivals(params: map<string, string>, j: string, rest: string, rivals: seq<string>)
    requires KeysOk(params) && Tidy(params) && j in params && Quiet(rest)
    requires forall k :: k in rivals ==> k in params && ToUpper(k) == ToUpper(j) && k != j
    ensures Apply(Placeholder(ToUpper(j)) + rest, params, [j]) == params[j] + rest
    ensures Apply(params[j] + rest, params, rivals) == params[j] + rest
  {
    hide ReplaceAll, Apply, ToUpper;
    var name := ToUpper(j);
    ApplyOneKey(Placeholder(name) + rest, params, j);
    ReplaceHead(rest, Placeholder(name), params[j]);
    QuietStays(rest, name, params[j]);
    if rivals != [] { assert rivals[0] in rivals; }
    OwnKeysSkip(params[j], rest, params, name, rivals);
  }

  lemma FlattenTwo(a: string, rest: string)
    ensures Flatten([Slot(a), Lit(rest)]) == Placeholder(a) + rest
  {
    assert [Slot(a), Lit(rest)][1..] == [Lit(rest)];
    assert [Lit(rest)][1..] == [];
    assert Show([Lit(rest)], map[], {}) == rest + [] == rest;
  }

  /** The exact condition on a parameter map: for every well-formed template all orders of its keys
      give the same text, if and only if keys of one name agree and no value overlaps another
      name's placeholder. */
  lemma OrderIndependentIffSafe(params: map<string, string>)
    requires KeysOk(params) && Tidy(params)
    ensures (Agreeing(params) && Safe(Uppers(params))) <==>
            forall tokens, one, two :: WellFormed(tokens) && IsOrder(one, params.Keys) && IsOrder(two, params.Keys) ==>
              Apply(Flatten(tokens), params, one) == Apply(Flatten(tokens), params, two)
  {
    hide Apply, Flatten, Fill, ToUpper, Overlaps, WellFormed;
    if !Agreeing(params) {
      var j, k :| j in params && k in params && ToUpper(j) == ToUpper(k) && params[j] != params[k];
      var _, _, _ := CollidingValuesMatter(params, j, k);
    } else if !Safe(Uppers(params)) {
      var vals := Uppers(params);
      var a, b :| a in vals && b in vals && a != b && vals[b] != Placeholder(b) && Overlaps(vals[a], Placeholder(b));
      var j :| j in params && ToUpper(j) == a;
      var k :| k in params && ToUpper(k) == b;
      var _, _, _ := UnsafeMeansOrderMatters(params, j, k);
    } else {
      forall tokens, one, two | WellFormed(tokens) && IsOrder(one, params.Keys) && IsOrder(two, params.Keys)
        ensures Apply(Flatten(tokens), params, one) == Apply(Flatten(tokens), params, two)
      {
        SafeMeansSimultaneous(tokens, params, one);
        SafeMeansSimultaneous(tokens, params, two);
      }
    }
  }

  /** In particular, where no double brace begins in a value, exactly when keys of one name agree. */
  lemma QuietOrderIndependentIffAgreeing(params: map<string, string>)
    requires KeysOk(params) && forall k :: k in params ==> Quiet(params[k])
    ensures Agreeing(params) <==>
            forall tokens, one, two :: WellFormed(tokens) && IsOrder(one, params.Keys) && IsOrder(two, params.Keys) ==>
              Apply(Flatten(tokens), params, one) == Apply(Flatten(tokens), params, two)
  {
    hide Apply, Flatten, ToUpper, Overlaps, WellFormed;
    forall j | j in params ensures !Overlaps(params[j], Placeholder(ToUpper(j))) {
      QuietHasNoOverlap(params[j], ToUpper(j));
    }
    if Agreeing(params) { QuietValuesAreSafe(Uppers(params)); }
    OrderIndependentIffSafe(params);
  }

  // ------------------------------------- why colliding values must not overlap their own name

  /** The text after the first of the two keys: an open half, then the other slot. */
  function HalfOpen(n: string, m: string): string {
    "{{" + n + Placeholder(m)
  }

  lemma HalfOpenCloses(n: string, m: string, q: string, i: nat)
    requires BraceFree(n) && BraceFree(m) && i <= |HalfOpen(n, m)| && Placeholder(q) <= HalfOpen(n, m)[i..]
    ensures i + 2 + |q| >= 4 + |n| + |m| && i + 4 + |q| <= |HalfOpen(n, m)|
    ensures HalfOpen(n, m)[i] == '{' && HalfOpen(n, m)[i + 1] == '{'
  {
    var s := HalfOpen(n, m);
    assert s[i..][2 + |q|] == '}';
    assert s[i..][0] == '{' && s[i..][1] == '{';
    forall x | 0 <= x < 4 + |n| + |m| ensures s[x] != '}' {
      if 2 <= x < 2 + |n| { assert s[x] == n[x - 2]; }
      if 4 + |n| <= x { assert s[x] == m[x - 4 - |n|]; }
    }
  }

  lemma HalfOpenBraces(n: string, m: string)
    requires BraceFree(n) && BraceFree(m)
    ensures forall x :: 2 <= x < 2 + |n| ==> HalfOpen(n, m)[x] != '{'
    ensures forall x :: 4 + |n| <= x < |HalfOpen(n, m)| ==> HalfOpen(n, m)[x] != '{'
  {
    var s := HalfOpen(n, m);
    forall x | 2 <= x < 2 + |n| ensures s[x] != '{' { assert s[x] == n[x - 2]; }
    forall x | 4 + |n| <= x < |s| ensures s[x] != '{' {
      assert x < 4 + |n| + |m| ==> s[x] == m[x - 4 - |n|];
    }
  }

  lemma OwnSlotMeansSame(n: string, m: string, i: nat)
    requires BraceFree(n) && BraceFree(m) && i <= |HalfOpen(n, m)| && Placeholder(n) <= HalfOpen(n, m)[i..]
    ensures n == m
  {
    var s := HalfOpen(n, m);
    HalfOpenCloses(n, m, n, i);
    HalfOpenBraces(n, m);
    assert i == 2 + |n| == 2 + |m|;
    assert s[i..] == Placeholder(m);
    assert n == Placeholder(n)[2..2 + |n|] && m == Placeholder(m)[2..2 + |m|];
  }

  /** What the three replacements make of the two slots. */
  lemma HalfOpenSteps(n: string, m: string)
    requires BraceFree(n) && BraceFree(m) && n != m
    ensures ReplaceAll(Placeholder(n) + Placeholder(m), Placeholder(n), "{{" + n) == HalfOpen(n, m)
    ensures ReplaceAll(HalfOpen(n, m), Placeholder(n), "{{" + n) == HalfOpen(n, m)
    ensures ReplaceAll(HalfOpen(n, m), Placeholder(m), "}}") == Placeholder(n)
    ensures ReplaceAll(Placeholder(n), Placeholder(n), "{{" + n) == "{{" + n
  {
    hide ReplaceAll;
    var half, p, q, s := "{{" + n, Placeholder(n), Placeholder(m), HalfOpen(n, m);
    ReplaceHead(q, p, half);
    OthersSkip(m, [], n, half);
    assert q + [] == q && p + [] == p && s + [] == s && half + [] == half && "}}" + [] == "}}";
    NothingToReplace(p, half);
    NothingToReplace(q, "}}");
    ReplaceHead([], p, half);
    ReplaceHead([], q, "}}");
    forall i | 0 <= i < |s| ensures !(p <= (s + [])[i..]) {
      if p <= s[i..] { OwnSlotMeansSame(n, m, i); }
    }
    ReplaceSkips(s, [], p, half);
    assert half + q == s;
    forall i | 0 <= i < |half| ensures !(q <= (half + q)[i..]) {
      if q <= s[i..] { HalfOpenCloses(n, m, m, i); }
    }
    ReplaceSkips(half, q, q, "}}");
    assert half + "}}" == p;
  }

  lemma NothingToReplace(pattern: string, value: string)
    requires pattern != []
    ensures ReplaceAll([], pattern, value) == []
  {}

  /** Two keys with the same value: an open half of their placeholder, which a third closes. Then it
      matters whether the second of the two comes before or after the third. */
  lemma UntidyCollision(params: map<string, string>, j: string, k: string, m: string)
    requires j != k && ToUpper(j) == ToUpper(k) && BraceFree(ToUpper(j)) && BraceFree(ToUpper(m))
    requires ToUpper(m) != ToUpper(j)
    requires params == map[j := "{{" + ToUpper(j), k := "{{" + ToUpper(j), m := "}}"]
    ensures Agreeing(params) && !Tidy(params)
    ensures var text := Flatten([Slot(ToUpper(j)), Slot(ToUpper(m))]);
            Apply(text, params, [j, k, m]) != Apply(text, params, [j, m, k])
  {
    hide Flatten, ToUpper, ReplaceAll, Apply, Overlaps, HalfOpen, Placeholder;
    OpenHalfOverlaps(ToUpper(j));
    TwoSlots(ToUpper(j), ToUpper(m));
    var text := Placeholder(ToUpper(j)) + Placeholder(ToUpper(m));
    ApplyThree(text, params, j, k, m);
    ApplyThree(text, params, j, m, k);
    HalfOpenSteps(ToUpper(j), ToUpper(m));
    assert |"{{" + ToUpper(j)| != |Placeholder(ToUpper(j))|;
  }

  lemma OpenHalfOverlaps(n: string)
    ensures Overlaps("{{" + n, Placeholder(n))
  {
    assert ("{{" + n)[0..] == "{{" + n;
    assert "{{" + n <= Placeholder(n);
  }

  lemma TwoSlots(n: string, m: string)
    ensures Flatten([Slot(n), Slot(m)]) == Placeholder(n) + Placeholder(m)
  {
    assert [Slot(n), Slot(m)][1..] == [Slot(m)] && [Slot(m)][1..] == [];
    assert Show([Slot(m)], map[], {}) == Placeholder(m) + Show([], map[], {});
  }

  lemma ApplyThree(text: string, params: map<string, string>, x: string, y: string, z: string)
    requires x in params && y in params && z in params
    ensures Apply(text, params, [x, y, z]) ==
            ReplaceAll(ReplaceAll(ReplaceAll(text, Placeholder(ToUpper(x)), params[x]),
                                  Placeholder(ToUpper(y)), params[y]),
                       Placeholder(ToUpper(z)), params[z])
  {
    hide ReplaceAll;
    ApplyOneMore(text, params, [x, y], z);
    ApplyOneMore(text, params, [x], y);
    ApplyOneMore(text, params, [], x);
    assert [x, y] + [z] == [x, y, z] && [x] + [y] == [x, y] && [] + [x] == [x];
  }

  // ------------------------------------------------- what the author of a template gets

  function Concat(parts: seq<string>): string {
    if parts == [] then [] else parts[0] + Concat(parts[1..])
  }

  /** How a token is written. */
  predicate Writes(token: Token, text: string) {
    match token
    case Lit(t) => text == t
    case Slot(name) => text == "{{" + name + "}}"
  }

  /** What it reads in the end: a slot named by the capitals of a key shows that key's value, and a
      slot that no key names stays as written. */
  predicate Reads(token: Token, params: map<string, string>, text: string) {
    match token
    case Lit(t) => text == t
    case Slot(name) =>
      && (forall k :: k in params && Capitals(k, name) ==> text == params[k])
      && ((forall k :: k in params ==> !Capitals(k, name)) ==> text == "{{" + name + "}}")
  }

  lemma {:induction false} FlattenIsWritten(tokens: seq<Token>, parts: seq<string>)
    requires |parts| == |tokens| && forall i :: 0 <= i < |tokens| ==> Writes(tokens[i], parts[i])
    ensures Flatten(tokens) == Concat(parts)
  {
    if tokens != [] {
      assert Writes(tokens[0], parts[0]);
      forall i | 0 <= i < |tokens[1..]| ensures Writes(tokens[1..][i], parts[1..][i]) {
        assert Writes(tokens[i + 1], parts[i + 1]);
      }
      FlattenIsWritten(tokens[1..], parts[1..]);
    }
  }

  lemma ShownReads(token: Token, params: map<string, string>)
    requires Agreeing(params)
    ensures Reads(token, params, Shown(token, Uppers(params), Uppers(params).Keys))
  {
    hide ToUpper, Capitals;
    if token.Slot? {
      forall k | k in params ensures ToUpper(k) == token.name <==> Capitals(k, token.name) {
        ToUpperIsCapitals(k, token.name);
      }
    }
  }

  lemma {:induction false} FillReads(tokens: seq<Token>, params: map<string, string>) returns (parts: seq<string>)
    requires Agreeing(params)
    ensures |parts| == |tokens| && forall i :: 0 <= i < |tokens| ==> Reads(tokens[i], params, parts[i])
    ensures Fill(tokens, Uppers(params)) == Concat(parts)
  {
    hide Shown, Reads;
    if tokens == [] {
      parts := [];
    } else {
      var rest := FillReads(tokens[1..], params);
      var first := Shown(tokens[0], Uppers(params), Uppers(params).Keys);
      ShownReads(tokens[0], params);
      parts := [first] + rest;
      assert parts[1..] == rest;
    }
  }

  // ------------------------------------------------------------- the loop

  lemma NoRepeatAppend(order: seq<string>, key: string)
    requires NoRepeat(order) && key !in order
    ensures NoRepeat(order + [key])
  {
    forall i, j | 0 <= i < j < |order| + 1
      ensures (order + [key])[i] != (order + [key])[j]
    {
      assert order[i] in order;
    }
  }

  /** The loop over the parameter map. It does the replacements in some order of the keys; with
      brace-free keys, values that agree and are safe, every order gives the simultaneous
      substitution of any well-formed template the text is written from. */
  method ReplaceParameters(userData: string, params: map<string, string>) returns (r: string)
    ensures exists order :: IsOrder(order, params.Keys) && r == Apply(userData, params, order)
    ensures KeysOk(params) && Tidy(params) && Agreeing(params) && Safe(Uppers(params)) ==>
              forall tokens :: WellFormed(tokens) && userData == Flatten(tokens) ==> r == Fill(tokens, Uppers(params))
    ensures KeysOk(params) && Tidy(params) && Agreeing(params) && Safe(Uppers(params)) ==>
              forall tokens :: WellFormed(tokens) && userData == Flatten(tokens) ==>
                exists parts :: && |parts| == |tokens| && r == Concat(parts)
                                && forall i :: 0 <= i < |tokens| ==> Reads(tokens[i], params, parts[i])
  {
    r := userData;
    var remaining := params.Keys;
    ghost var order: seq<string> := [];
    while remaining != {}
      invariant remaining <= params.Keys
      invariant NoRepeat(order) && forall k :: k in order <==> k in params.Keys - remaining
      invariant r == Apply(userData, params, order)
      decreases remaining
    {
      var key :| key in remaining;
      r := ReplaceAll(r, Placeholder(ToUpper(key)), params[key]);
      ApplyOneMore(userData, params, order, key);
      NoRepeatAppend(order, key);
      order := order + [key];
      remaining := remaining - {key};
    }
    assert IsOrder(order, params.Keys);
    if KeysOk(params) && Tidy(params) && Agreeing(params) && Safe(Uppers(params)) {
      forall tokens | WellFormed(tokens) && userData == Flatten(tokens)
        ensures r == Fill(tokens, Uppers(params))
        ensures exists parts :: && |parts| == |tokens| && r == Concat(parts)
                                && forall i :: 0 <= i < |tokens| ==> Reads(tokens[i], params, parts[i])
      {
        SafeMeansSimultaneous(tokens, params, order);
        var parts := FillReads(tokens, params);
      }
    }
  }
}
