/** The Gemini encoder on tool arguments that are JSON objects, printed or derived by the grammar of
    RFC 8259 (src/adapters/gemini/stream.rs, `encode`). */
module GeminiObjects {
  import opened Bytes
  import opened Neutral
  import opened GeminiStream
  import opened JsonGrammar
  import opened JsonDerivation
  import opened JsonReader
  import Txt = JsonText
  import Str = JsonString
  import Lex = JsonLexemes

  // ----- printed values are derived -----

  /** Every number of the value is written as RFC 8259 has it. */
  ghost predicate RfcNumbers(j: Txt.Json) {
    match j
    case Num(t) => exists n :: NumeralOk(n) && NumeralText(n) == t
    case Arr(items) => forall i | 0 <= i < |items| :: RfcNumbers(items[i])
    case Obj(members) => forall i | 0 <= i < |members| :: RfcNumbers(members[i].value)
    case _ => true
  }

  lemma {:induction false} StringIsDerived(s: Text)
    ensures ChsOk(Lex.Canonical(s)) && QuotedText(Lex.Canonical(s)) == Txt.PrintString(s)
  {
    hide Written, Lex.Canonical, Str.Escape;
    Lex.CanonicalSpells(s);
  }

  /** What the printer writes has a derivation. */
  lemma {:induction false} PrintIsDerived(j: Txt.Json) returns (t: Tree)
    requires RfcNumbers(j)
    ensures TreeOk(t) && Yield(t) == Txt.Print(j) && (t.TObject? <==> j.Obj?)
    decreases j, 0
  {
    match j {
      case Null =>
        t := TNull;
        assert Ascii("null") == Yield(t);
      case Bool(b) =>
        t := TBool(b);
        assert Ascii("true") == [0x74, 0x72, 0x75, 0x65] && Ascii("false") == [0x66, 0x61, 0x6C, 0x73, 0x65];
      case Num(text) =>
        var n :| NumeralOk(n) && NumeralText(n) == text;
        t := TNumber(n);
      case Str(s) =>
        hide Lex.Canonical;
        StringIsDerived(s);
        t := TString(Lex.Canonical(s));
      case Arr(items) =>
        hide YieldItems, Txt.PrintItems;
        var xs := ItemsAreDerived(items);
        NoSpace();
        t := TArray([], xs);
        NothingPrinted();
      case Obj(members) =>
        hide YieldFields, Txt.PrintMembers;
        var fs := MembersAreDerived(members);
        NoSpace();
        t := TObject([], fs);
        NothingPrinted();
    }
  }

  lemma {:induction false} NothingPrinted()
    ensures Txt.PrintItems([]) == [] && Txt.PrintMembers([]) == []
  {
  }

  lemma {:induction false} ItemsAreDerived(items: seq<Txt.Json>) returns (xs: seq<Item>)
    requires forall i | 0 <= i < |items| :: RfcNumbers(items[i])
    ensures |xs| == |items| && (forall i | 0 <= i < |xs| :: ItemOk(xs[i])) && YieldItems(xs) == Txt.PrintItems(items)
    decreases items, 1
  {
    hide RfcNumbers, Yield, Txt.Print, TreeOk;
    if items == [] {
      xs := [];
    } else {
      var t := PrintIsDerived(items[0]);
      var rest := ItemsAreDerived(items[1..]);
      xs := [Item([], t, [])] + rest;
      NoSpace();
      assert xs[1..] == rest;
      var y := Yield(t);
      assert [] + y + [] == y;
    }
  }

  lemma {:induction false} MembersAreDerived(members: seq<Txt.Member>) returns (fs: seq<Field>)
    requires forall i | 0 <= i < |members| :: RfcNumbers(members[i].value)
    ensures |fs| == |members| && (forall i | 0 <= i < |fs| :: FieldOk(fs[i])) && YieldFields(fs) == Txt.PrintMembers(members)
    decreases members, 1
  {
    hide RfcNumbers, Yield, Txt.Print, TreeOk, QuotedText, Txt.PrintString, Lex.Canonical, ChsOk;
    if members == [] {
      fs := [];
    } else {
      var m := members[0];
      var t := PrintIsDerived(m.value);
      var rest := MembersAreDerived(members[1..]);
      StringIsDerived(m.key);
      var f := Field([], Lex.Canonical(m.key), [], [], t, []);
      fs := [f] + rest;
      NoSpace();
      assert fs[1..] == rest;
      var q, y := QuotedText(f.key), Yield(t);
      assert [] + q + [] + [0x3A] + [] + y + [] == q + [0x3A] + y;
    }
  }

  /** Every printed value is JSON to the recognizer, and every printed object an object text. */
  lemma {:induction false} PrintedIsJson(j: Txt.Json)
    requires RfcNumbers(j)
    ensures IsJson(Txt.Print(j)) && (j.Obj? ==> ObjectText(Txt.Print(j)) && ObjectJson(Txt.Print(j)))
  {
    hide Yield, TreeOk, Txt.Print, RfcNumbers;
    var t := PrintIsDerived(j);
    NoSpace();
    var s := Txt.Print(j);
    assert s == [] + Yield(t) + [];
    DerivedIsJson([], t, [], s);
  }

  // ----- the encoder -----

  /** For every interleaving and every fragmentation of a printed object: the call is emitted exactly once,
      with the first fragment's id and name and the whole printed object, and nothing of the index stays
      pending if and only if the last fragment is not empty. */
  lemma {:induction false} PrintedObjectIsSent(i: nat, es: seq<Event>, members: seq<Txt.Member>)
    requires NoStops(es) && RfcNumbers(Txt.Obj(members))
    requires Arguments(FragmentsOf(i, es)) == Txt.Print(Txt.Obj(members))
    ensures var fs := FragmentsOf(i, es);
            && fs != []
            && CallsFor(i, NEW_ENCODER, es) == [WCall(0, fs[0].id, fs[0].name, Some(Txt.Print(Txt.Obj(members))))]
            && (i !in EncodeAll(NEW_ENCODER, es).0.pendingCalls <==> fs[|fs| - 1].arguments != [])
  {
    hide CallsFor, EncodeAll, Arguments, FragmentsOf, ObjectText, Txt.Print, RfcNumbers;
    PrintedIsJson(Txt.Obj(members));
    EmptyTailStaysPending(i, es);
  }

  /** The same for every object the grammar derives, white space around it or not: the call is emitted
      exactly once, at the fragment with which the object's closing brace arrives, and a new call is
      pending if and only if a fragment follows that one. */
  lemma {:induction false} DerivedObjectIsSent(i: nat, es: seq<Event>, before: Text, t: Tree, after: Text) returns (k: nat)
    requires NoStops(es) && t.TObject? && Derives(before, t, after, Arguments(FragmentsOf(i, es)))
    ensures var fs, size := FragmentsOf(i, es), |before| + |Yield(t)|;
            && 0 < k <= |fs| && |Arguments(fs[..k - 1])| < size <= |Arguments(fs[..k])|
            && CallsFor(i, NEW_ENCODER, es) == [WCall(0, fs[0].id, fs[0].name, Some(Arguments(fs[..k])))]
            && (i in EncodeAll(NEW_ENCODER, es).0.pendingCalls <==> k < |fs|)
  {
    hide CallsFor, EncodeAll, Arguments, FragmentsOf, FirstComplete, IsJson, ObjectJson, Derives, IsSpace, Yield;
    var fs := FragmentsOf(i, es);
    var s := Arguments(fs);
    DerivedIsJson(before, t, after, s);
    EncoderBuffersCorrectly(i, es);
    k := FirstComplete(fs, 0);
    assert fs == fs[..k] + fs[k..] && fs == fs[..k - 1] + fs[k - 1..];
    ArgumentsConcat(fs[..k], fs[k..]);
    ArgumentsConcat(fs[..k - 1], fs[k - 1..]);
    BraceArrived(before, t, after, Arguments(fs[..k]), Arguments(fs[k..]));
    assert !IsJson(Arguments(fs[..k - 1]));
    BraceMissing(before, t, after, Arguments(fs[..k - 1]), Arguments(fs[k - 1..]));
  }

  lemma {:induction false} BraceArrived(before: Text, t: Tree, after: Text, p: Text, rest: Text)
    requires t.TObject? && Derives(before, t, after, p + rest) && IsSpace(rest)
    ensures |before| + |Yield(t)| <= |p|
  {
    hide Yield, TreeOk;
    var s, size := p + rest, |before| + |Yield(t)|;
    ObjectEnds(t);
    assert s[size - 1] == RBRACE;
    RestIsSpace(p, rest);
  }

  lemma {:induction false} RestIsSpace(p: Text, rest: Text)
    requires IsSpace(rest)
    ensures forall x | |p| <= x < |p + rest| :: IsWs((p + rest)[x])
  {
    forall x | |p| <= x < |p + rest| ensures IsWs((p + rest)[x]) {
      assert (p + rest)[x] == rest[x - |p|];
    }
  }

  lemma {:induction false} BraceMissing(before: Text, t: Tree, after: Text, p: Text, rest: Text)
    requires t.TObject? && Derives(before, t, after, p + rest) && !IsJson(p)
    ensures |p| < |before| + |Yield(t)|
  {
    hide Yield, TreeOk, IsJson;
    var s, size := p + rest, |before| + |Yield(t)|;
    if |p| >= size {
      var w := after[..|p| - size];
      assert p == s[..|p|] == before + Yield(t) + w;
      DerivedIsJson(before, t, w, p);
      assert false;
    }
  }
}
