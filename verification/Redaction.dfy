/** Payload redaction of a trace. Which keys look like secrets and which name sensitive content are
    parameters, so the results hold for every such classification. */
module Redaction {
  import opened Decimal

  datatype Json =
    | Null | Bool(b: bool) | Number(text: string) | Str(s: string) | Arr(items: seq<Json>) | Obj(fields: seq<Field>)
  datatype Field = Field(key: string, value: Json)

  datatype Level = Redacted | Debug
  datatype Keys = Keys(secret: string -> bool, content: string -> bool)

  // ---- the program ------------------------------------------------------------------------------

  /** A key whose value is masked, and under which category. */
  predicate Masked(key: string, level: Level, keys: Keys) {
    keys.secret(key) || (level == Redacted && keys.content(key))
  }

  function Category(key: string, keys: Keys): string { if keys.secret(key) then "secret" else "content" }

  function Mask(value: Json, category: string): Json {
    if value.Str? then Str("<redacted:" + category + ":" + Print(|value.s|) + " chars>")
    else Str("<redacted:" + category + ">")
  }

  function RedactField(f: Field, level: Level, keys: Keys): Field
    decreases f
  {
    Field(f.key, if Masked(f.key, level, keys) then Mask(f.value, Category(f.key, keys))
          else RedactValue(f.value, level, keys))
  }

  function RedactFields(fs: seq<Field>, level: Level, keys: Keys): seq<Field>
    decreases fs
  {
    if fs == [] then [] else [RedactField(fs[0], level, keys)] + RedactFields(fs[1..], level, keys)
  }

  function RedactItems(items: seq<Json>, level: Level, keys: Keys): seq<Json>
    decreases items
  {
    if items == [] then [] else [RedactValue(items[0], level, keys)] + RedactItems(items[1..], level, keys)
  }

  function RedactValue(v: Json, level: Level, keys: Keys): Json
    decreases v
  {
    match v
    case Obj(fields) => Obj(RedactFields(fields, level, keys))
    case Arr(items) => Arr(RedactItems(items, level, keys))
    case _ => v
  }

  // ---- what redaction reveals -------------------------------------------------------------------

  /** Both strings of one length, or both no strings. */
  predicate SameShape(v: Json, w: Json) {
    v.Str? == w.Str? && (v.Str? ==> |v.s| == |w.s|)
  }

  /** Equal except for what stands under masked keys, where only the shape has to agree. */
  predicate Alike(v: Json, w: Json, level: Level, keys: Keys)
    decreases v
  {
    match (v, w)
    case (Obj(fs), Obj(gs)) => AlikeFields(fs, gs, level, keys)
    case (Arr(xs), Arr(ys)) => AlikeItems(xs, ys, level, keys)
    case _ => v == w
  }

  predicate AlikeField(f: Field, g: Field, level: Level, keys: Keys)
    decreases f
  {
    && f.key == g.key
    && if keys.secret(f.key) || (level == Redacted && keys.content(f.key)) then SameShape(f.value, g.value)
       else Alike(f.value, g.value, level, keys)
  }

  predicate AlikeFields(fs: seq<Field>, gs: seq<Field>, level: Level, keys: Keys)
    decreases fs
  {
    if fs == [] || gs == [] then fs == [] && gs == []
    else AlikeField(fs[0], gs[0], level, keys) && AlikeFields(fs[1..], gs[1..], level, keys)
  }

  predicate AlikeItems(xs: seq<Json>, ys: seq<Json>, level: Level, keys: Keys)
    decreases xs
  {
    if xs == [] || ys == [] then xs == [] && ys == []
    else Alike(xs[0], ys[0], level, keys) && AlikeItems(xs[1..], ys[1..], level, keys)
  }

  /** A mask tells exactly whether the value was a string, and how long. */
  lemma MaskRevealsShape(v: Json, w: Json, category: string)
    ensures Mask(v, category) == Mask(w, category) <==> SameShape(v, w)
  {
    var head := "<redacted:" + category;
    MaskText(v, category);
    MaskText(w, category);
    if v.Str? && w.Str? && |v.s| != |w.s| {
      var a, b := Print(|v.s|), Print(|w.s|);
      if a == b {
        PrintInjective(|v.s|, |w.s|);
      }
      TextsDiffer(head + ":", a, b, " chars>");
    }
  }

  lemma MaskText(v: Json, category: string)
    ensures var head := "<redacted:" + category;
            && Mask(v, category).Str? && |Mask(v, category).s| > |head|
            && Mask(v, category).s[|head|] == (if v.Str? then ':' else '>')
            && (v.Str? ==> Mask(v, category).s == head + ":" + Print(|v.s|) + " chars>")
  {
    var head := "<redacted:" + category;
    if v.Str? {
      assert Mask(v, category).s == head + ":" + Print(|v.s|) + " chars>";
    } else {
      assert Mask(v, category).s == head + ">";
    }
  }

  lemma TextsDiffer(head: string, a: string, b: string, tail: string)
    requires a != b
    ensures head + a + tail != head + b + tail
  {
    var x, y := head + a + tail, head + b + tail;
    if |a| == |b| {
      assert x[|head|..|head| + |a|] == a && y[|head|..|head| + |b|] == b;
    } else {
      assert |x| != |y|;
    }
  }

  lemma {:induction false} ValueReveals(v: Json, w: Json, level: Level, keys: Keys)
    ensures RedactValue(v, level, keys) == RedactValue(w, level, keys) <==> Alike(v, w, level, keys)
    decreases v, 1
  {
    match (v, w)
    case (Obj(fs), Obj(gs)) => FieldsReveal(fs, gs, level, keys);
    case (Arr(xs), Arr(ys)) => ItemsReveal(xs, ys, level, keys);
    case _ =>
  }

  lemma {:induction false} FieldReveals(f: Field, g: Field, level: Level, keys: Keys)
    ensures RedactField(f, level, keys) == RedactField(g, level, keys) <==> AlikeField(f, g, level, keys)
    decreases f, 1
  {
    if f.key == g.key {
      if Masked(f.key, level, keys) {
        MaskRevealsShape(f.value, g.value, Category(f.key, keys));
      } else {
        ValueReveals(f.value, g.value, level, keys);
      }
    }
  }

  lemma {:induction false} FieldsReveal(fs: seq<Field>, gs: seq<Field>, level: Level, keys: Keys)
    ensures RedactFields(fs, level, keys) == RedactFields(gs, level, keys) <==> AlikeFields(fs, gs, level, keys)
    decreases fs, 0
  {
    if fs != [] && gs != [] {
      FieldReveals(fs[0], gs[0], level, keys);
      FieldsReveal(fs[1..], gs[1..], level, keys);
      var a, b := RedactFields(fs, level, keys), RedactFields(gs, level, keys);
      assert a[0] == RedactField(fs[0], level, keys) && a[1..] == RedactFields(fs[1..], level, keys);
      assert b[0] == RedactField(gs[0], level, keys) && b[1..] == RedactFields(gs[1..], level, keys);
    }
  }

  lemma {:induction false} ItemsReveal(xs: seq<Json>, ys: seq<Json>, level: Level, keys: Keys)
    ensures RedactItems(xs, level, keys) == RedactItems(ys, level, keys) <==> AlikeItems(xs, ys, level, keys)
    decreases xs, 0
  {
    if xs != [] && ys != [] {
      ValueReveals(xs[0], ys[0], level, keys);
      ItemsReveal(xs[1..], ys[1..], level, keys);
      var a, b := RedactItems(xs, level, keys), RedactItems(ys, level, keys);
      assert a[0] == RedactValue(xs[0], level, keys) && a[1..] == RedactItems(xs[1..], level, keys);
      assert b[0] == RedactValue(ys[0], level, keys) && b[1..] == RedactItems(ys[1..], level, keys);
    }
  }

  /** A redacted payload reveals exactly what `Alike` compares: two payloads redact to the same text if and
      only if they differ at most under masked keys, in values that are strings of one length or
      no strings at all. At `Debug` only secret-looking keys are masked. */
  lemma RedactionRevealsExactly(p: seq<Field>, q: seq<Field>, level: Level, keys: Keys)
    ensures RedactFields(p, level, keys) == RedactFields(q, level, keys) <==> AlikeFields(p, q, level, keys)
  {
    FieldsReveal(p, q, level, keys);
  }

  lemma {:induction false} AlikeLevels(v: Json, w: Json, keys: Keys)
    requires Alike(v, w, Debug, keys)
    ensures Alike(v, w, Redacted, keys) && SameShape(v, w)
    decreases v, 1
  {
    match (v, w)
    case (Obj(fs), Obj(gs)) => AlikeFieldLevels(fs, gs, keys);
    case (Arr(xs), Arr(ys)) => AlikeItemLevels(xs, ys, keys);
    case _ =>
  }

  lemma {:induction false} AlikeFieldLevels(fs: seq<Field>, gs: seq<Field>, keys: Keys)
    requires AlikeFields(fs, gs, Debug, keys)
    ensures AlikeFields(fs, gs, Redacted, keys)
    decreases fs, 0
  {
    if fs != [] && gs != [] {
      if !keys.secret(fs[0].key) {
        AlikeLevels(fs[0].value, gs[0].value, keys);
      }
      AlikeFieldLevels(fs[1..], gs[1..], keys);
    }
  }

  lemma {:induction false} AlikeItemLevels(xs: seq<Json>, ys: seq<Json>, keys: Keys)
    requires AlikeItems(xs, ys, Debug, keys)
    ensures AlikeItems(xs, ys, Redacted, keys)
    decreases xs, 0
  {
    if xs != [] && ys != [] {
      AlikeLevels(xs[0], ys[0], keys);
      AlikeItemLevels(xs[1..], ys[1..], keys);
    }
  }

  /** What a field reads as after redaction: the key as it was; the mask of a secret, with its length if it was
      a string; at the redacted level the mask of sensitive content; and otherwise the value, with its own
      fields and items treated the same way. */
  lemma FieldReads(p: seq<Field>, i: nat, level: Level, keys: Keys)
    requires i < |p|
    ensures |RedactFields(p, level, keys)| == |p|
    ensures var f, shown := p[i], RedactFields(p, level, keys)[i];
            && shown.key == f.key
            && (keys.secret(f.key) ==>
                  shown.value == if f.value.Str? then Str("<redacted:secret:" + Print(|f.value.s|) + " chars>")
                                 else Str("<redacted:secret>"))
            && (!keys.secret(f.key) && keys.content(f.key) && level == Redacted ==>
                  shown.value == if f.value.Str? then Str("<redacted:content:" + Print(|f.value.s|) + " chars>")
                                 else Str("<redacted:content>"))
            && (!keys.secret(f.key) && (level == Debug || !keys.content(f.key)) ==>
                  && (f.value.Obj? ==> shown.value == Obj(RedactFields(f.value.fields, level, keys)))
                  && (f.value.Arr? ==> shown.value == Arr(RedactItems(f.value.items, level, keys)))
                  && (!f.value.Obj? && !f.value.Arr? ==> shown.value == f.value))
    decreases i
  {
    FieldAt(p, i, level, keys);
    MaskReads(p[i].value);
  }

  lemma {:induction false} FieldAt(p: seq<Field>, i: nat, level: Level, keys: Keys)
    requires i < |p|
    ensures |RedactFields(p, level, keys)| == |p| && RedactFields(p, level, keys)[i] == RedactField(p[i], level, keys)
    decreases p
  {
    if |p| > 1 {
      FieldAt(p[1..], if i > 0 then i - 1 else 0, level, keys);
    }
  }

  lemma MaskReads(v: Json)
    ensures Mask(v, "secret") == if v.Str? then Str("<redacted:secret:" + Print(|v.s|) + " chars>")
              else Str("<redacted:secret>")
    ensures Mask(v, "content") ==
              if v.Str? then Str("<redacted:content:" + Print(|v.s|) + " chars>") else Str("<redacted:content>")
  {
    assert "<redacted:" + "secret" + ":" == "<redacted:secret:" && "<redacted:" + "secret" + ">" == "<redacted:secret>";
    assert "<redacted:" + "content" + ":" == "<redacted:content:"
           && "<redacted:" + "content" + ">" == "<redacted:content>";
  }

  /** Payloads that differ only under secret-looking keys, at any depth, redact identically at both levels. */
  lemma SecretsNeverShow(p: seq<Field>, q: seq<Field>, keys: Keys)
    requires AlikeFields(p, q, Debug, keys)
    ensures RedactFields(p, Debug, keys) == RedactFields(q, Debug, keys)
    ensures RedactFields(p, Redacted, keys) == RedactFields(q, Redacted, keys)
  {
    AlikeFieldLevels(p, q, keys);
    RedactionRevealsExactly(p, q, Debug, keys);
    RedactionRevealsExactly(p, q, Redacted, keys);
  }
}
