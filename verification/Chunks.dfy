/** Completion chunks: the two printers' objects, and what a reader's struct takes from them. */
module Chunks {
  import opened Collections
  import opened Json

  // ---------------------------------------------------------------- chunks

  /** A live backend marshals structs (declared order, empty strings kept except finish_reason); a replay marshals
      maps (sorted keys, only the keys that were set). */
  datatype Dialect = Live | Cached

  datatype Meta = Meta(id: string, created: nat, model: string)

  datatype Delta = Role | Content(text: string) | Closing

  function TextOf(d: Delta): string {
    if d.Content? then d.text else ""
  }

  function DeltaJson(dialect: Dialect, d: Delta): Json {
    match dialect
    case Live =>
      Obj(Field("role", Str(if d.Role? then "assistant" else ""), Field("content", Str(TextOf(d)), NoFields)))
    case Cached =>
      match d
      case Role => Obj(Field("role", Str("assistant"), NoFields))
      case Content(text) => Obj(Field("content", Str(text), NoFields))
      case Closing => Obj(NoFields)
  }

  function ChoiceJson(dialect: Dialect, d: Delta): Json {
    match dialect
    case Live =>
      var finish := if d.Closing? then Field("finish_reason", Str("stop"), NoFields) else NoFields;
      Obj(Field("index", Num(0), Field("delta", DeltaJson(Live, d), finish)))
    case Cached =>
      var index := Field("index", Num(0), NoFields);
      Obj(Field("delta", DeltaJson(Cached, d),
                if d.Closing? then Field("finish_reason", Str("stop"), index) else index))
  }

  const KIND := "chat.completion.chunk"

  function Chunk(dialect: Dialect, m: Meta, d: Delta): (v: Json)
    ensures v.Obj?
  {
    var choices := Arr(Item(ChoiceJson(dialect, d), NoItems));
    match dialect
    case Live =>
      Obj(Field("id", Str(m.id), Field("object", Str(KIND), Field("created", Num(m.created),
          Field("model", Str(m.model), Field("choices", choices, NoFields))))))
    case Cached =>
      Obj(Field("choices", choices, Field("created", Num(m.created), Field("id", Str(m.id),
          Field("model", Str(m.model), Field("object", Str(KIND), NoFields))))))
  }

  // ---------------------------------------------------------------- decoding into the chunk struct

  /** The simple case folding json.Unmarshal matches keys by, where it meets a lower-case ASCII letter. */
  function Fold(c: char): char {
    if 'A' <= c <= 'Z' then (c as int + 32) as char
    else if c as int == 0x17F then 's'
    else if c as int == 0x212A then 'k'
    else c
  }

  predicate KeyIs(key: string, name: string) {
    |key| == |name| && forall i :: 0 <= i < |key| ==> Fold(key[i]) == name[i]
  }

  /** Decoding into a string that holds `prior`; None is a type error, which makes Unmarshal fail. */
  function DecodeString(v: Json, prior: string): Option<string> {
    match v
    case Null => Some(prior)
    case Str(s) => Some(s)
    case _ => None
  }

  function DecodeDeltaFields(fields: Fields, prior: string): Option<string> {
    match fields
    case NoFields => Some(prior)
    case Field(key, value, rest) =>
      if !KeyIs(key, "content") then DecodeDeltaFields(rest, prior)
      else
        match DecodeString(value, prior)
        case None => None
        case Some(s) => DecodeDeltaFields(rest, s)
  }

  /** Decoding into a struct whose one field is `content`, and into one whose one field is `delta`. */
  function DecodeDelta(v: Json, prior: string): Option<string> {
    match v
    case Null => Some(prior)
    case Obj(fields) => DecodeDeltaFields(fields, prior)
    case _ => None
  }

  function DecodeChoiceFields(fields: Fields, prior: string): Option<string> {
    match fields
    case NoFields => Some(prior)
    case Field(key, value, rest) =>
      if !KeyIs(key, "delta") then DecodeChoiceFields(rest, prior)
      else
        match DecodeDelta(value, prior)
        case None => None
        case Some(s) => DecodeChoiceFields(rest, s)
  }

  function DecodeChoice(v: Json, prior: string): Option<string> {
    match v
    case Null => Some(prior)
    case Obj(fields) => DecodeChoiceFields(fields, prior)
    case _ => None
  }

  function DecodeItems(items: Items, prior: seq<string>): Option<seq<string>> {
    match items
    case NoItems => Some([])
    case Item(head, tail) =>
      var (first, others) := if prior == [] then ("", []) else (prior[0], prior[1..]);
      match (DecodeChoice(head, first), DecodeItems(tail, others))
      case (Some(s), Some(ss)) => Some([s] + ss)
      case _ => None
  }

  /** Decoding into the slice of choices: element by element over what it holds, null empties it. */
  function DecodeChoices(v: Json, prior: seq<string>): Option<seq<string>> {
    match v
    case Null => Some([])
    case Arr(items) => DecodeItems(items, prior)
    case _ => None
  }

  function DecodeChunkFields(fields: Fields, prior: seq<string>): Option<seq<string>> {
    match fields
    case NoFields => Some(prior)
    case Field(key, value, rest) =>
      if !KeyIs(key, "choices") then DecodeChunkFields(rest, prior)
      else
        match DecodeChoices(value, prior)
        case None => None
        case Some(ss) => DecodeChunkFields(rest, ss)
  }

  /** The content of each choice. */
  function DecodeChunk(v: Json): Option<seq<string>> {
    match v
    case Null => Some([])
    case Obj(fields) => DecodeChunkFields(fields, [])
    case _ => None
  }

  lemma DeltaDecodes(dialect: Dialect, d: Delta)
    ensures DecodeDelta(DeltaJson(dialect, d), "") == Some(TextOf(d))
  {
    assert !KeyIs("role", "content") && KeyIs("content", "content");
    var t := TextOf(d);
    assert DecodeDeltaFields(Field("content", Str(t), NoFields), "") == DecodeDeltaFields(NoFields, t) == Some(t);
    assert DecodeDeltaFields(Field("role", Str("assistant"), NoFields), "") == Some("");
  }

  lemma ChoiceDecodes(dialect: Dialect, d: Delta)
    ensures DecodeChoice(ChoiceJson(dialect, d), "") == Some(TextOf(d))
  {
    DeltaDecodes(dialect, d);
    assert Fold("index"[0]) != "delta"[0];
    assert !KeyIs("index", "delta") && KeyIs("delta", "delta") && !KeyIs("finish_reason", "delta");
    var v, t := DeltaJson(dialect, d), TextOf(d);
    var index := Field("index", Num(0), NoFields);
    var finish := Field("finish_reason", Str("stop"), NoFields);
    var both := Field("finish_reason", Str("stop"), index);
    assert forall s :: DecodeChoiceFields(index, s) == DecodeChoiceFields(NoFields, s) == Some(s);
    assert DecodeChoiceFields(finish, t) == Some(t) && DecodeChoiceFields(both, t) == Some(t);
    assert forall rest :: DecodeChoiceFields(Field("delta", v, rest), "") == DecodeChoiceFields(rest, t);
  }

  lemma OtherKeys()
    ensures KeyIs("choices", "choices")
    ensures !KeyIs("id", "choices") && !KeyIs("object", "choices") && !KeyIs("model", "choices")
    ensures !KeyIs("created", "choices")
  {
    assert Fold("created"[1]) != "choices"[1];
  }

  lemma SkipsMember(key: string, value: Json, rest: Fields, prior: seq<string>)
    requires !KeyIs(key, "choices")
    ensures DecodeChunkFields(Field(key, value, rest), prior) == DecodeChunkFields(rest, prior)
  {}

  /** Only one member of the chunk object matters, wherever it stands. */
  lemma ChunkFieldsDecode(v: Json, texts: seq<string>, created: Json, model: Json, id: Json, kind: Json)
    requires DecodeChoices(v, []) == Some(texts)
    ensures DecodeChunkFields(Field("id", id, Field("object", kind, Field("created", created,
              Field("model", model, Field("choices", v, NoFields))))), []) == Some(texts)
    ensures DecodeChunkFields(Field("choices", v, Field("created", created, Field("id", id,
              Field("model", model, Field("object", kind, NoFields))))), []) == Some(texts)
  {
    OtherKeys();
    var last := Field("choices", v, NoFields);
    var fromModel := Field("model", model, last);
    var fromCreated := Field("created", created, fromModel);
    SkipsMember("model", model, last, []);
    SkipsMember("created", created, fromModel, []);
    SkipsMember("object", kind, fromCreated, []);
    SkipsMember("id", id, Field("object", kind, fromCreated), []);
    var objectOnly := Field("object", kind, NoFields);
    var afterId := Field("model", model, objectOnly);
    SkipsMember("object", kind, NoFields, texts);
    SkipsMember("model", model, objectOnly, texts);
    SkipsMember("id", id, afterId, texts);
    SkipsMember("created", created, Field("id", id, afterId), texts);
  }

  /** Either printer's chunk decodes to the text of its delta, whatever the key order and the keys left out. */
  lemma ChunkDecodes(dialect: Dialect, m: Meta, d: Delta)
    ensures DecodeChunk(Chunk(dialect, m, d)) == Some([TextOf(d)])
  {
    ChoiceDecodes(dialect, d);
    var none: seq<string> := [];
    var items := Item(ChoiceJson(dialect, d), NoItems);
    assert DecodeItems(NoItems, none) == Some(none);
    assert DecodeItems(items, none) == Some([TextOf(d)] + none);
    assert [TextOf(d)] + none == [TextOf(d)];
    ChunkFieldsDecode(Arr(items), [TextOf(d)], Num(m.created), Str(m.model), Str(m.id), Str(KIND));
  }

  // ---------------------------------------------------------------- what a client reads

  /** A completion chunk as a typed client holds it: a string that was left out is empty. */
  datatype ClientView = ClientView(id: string, kind: string, created: nat, model: string,
                                   index: nat, role: string, content: string, finish: string)

  function MemberOf(fields: Fields, key: string): Json {
    match fields
    case NoFields => Null
    case Field(k, value, rest) => if k == key then value else MemberOf(rest, key)
  }

  function Member(v: Json, key: string): Json {
    if v.Obj? then MemberOf(v.fields, key) else Null
  }

  function StringOf(v: Json): string {
    if v.Str? then v.s else ""
  }

  function NumberOf(v: Json): nat {
    if v.Num? then v.n else 0
  }

  /** The only element of an array. */
  function Only(v: Json): Json {
    if v.Arr? && v.items.Item? && v.items.tail == NoItems then v.items.head else Null
  }

  function ViewOf(v: Json): ClientView {
    var choice := Only(Member(v, "choices"));
    var delta := Member(choice, "delta");
    ClientView(StringOf(Member(v, "id")), StringOf(Member(v, "object")),
               NumberOf(Member(v, "created")), StringOf(Member(v, "model")),
               NumberOf(Member(choice, "index")), StringOf(Member(delta, "role")), StringOf(Member(delta, "content")),
               StringOf(Member(choice, "finish_reason")))
  }

  lemma MemberNext(k: string, v: Json, rest: Fields, key: string)
    ensures MemberOf(Field(k, v, rest), key) == if k == key then v else MemberOf(rest, key)
  {}

  /** Where to find the members of an object with these keys. */
  lemma FiveMembers(a: string, va: Json, b: string, vb: Json, c: string, vc: Json, d: string, vd: Json,
                    e: string, ve: Json, key: string)
    ensures MemberOf(Field(a, va, Field(b, vb, Field(c, vc, Field(d, vd, Field(e, ve, NoFields))))), key)
         == if a == key then va else if b == key then vb else if c == key then vc else if d == key then vd
            else if e == key then ve else Null
  {
    var fe := Field(e, ve, NoFields);
    var fd := Field(d, vd, fe);
    var fc := Field(c, vc, fd);
    MemberNext(e, ve, NoFields, key);
    MemberNext(d, vd, fe, key);
    MemberNext(c, vc, fd, key);
    MemberNext(b, vb, fc, key);
  }

  lemma ThreeMembers(a: string, va: Json, b: string, vb: Json, c: string, vc: Json, key: string)
    ensures MemberOf(Field(c, vc, NoFields), key) == if c == key then vc else Null
    ensures MemberOf(Field(b, vb, Field(c, vc, NoFields)), key)
         == if b == key then vb else if c == key then vc else Null
    ensures MemberOf(Field(a, va, Field(b, vb, Field(c, vc, NoFields))), key)
         == if a == key then va else if b == key then vb else if c == key then vc else Null
  {
    MemberNext(c, vc, NoFields, key);
    MemberNext(b, vb, Field(c, vc, NoFields), key);
    MemberNext(a, va, Field(b, vb, Field(c, vc, NoFields)), key);
  }

  lemma DeltaMember(dialect: Dialect, d: Delta, key: string)
    requires key in {"role", "content"}
    ensures StringOf(Member(DeltaJson(dialect, d), key))
         == if key == "content" then TextOf(d) else if d.Role? then "assistant" else ""
  {
    assert "role" != "content";
    var role := Str(if d.Role? then "assistant" else "");
    ThreeMembers("", Null, "role", role, "content", Str(TextOf(d)), key);
    ThreeMembers("", Null, "", Null, "role", role, key);
  }

  lemma ChoiceKeys()
    ensures "index" != "delta" && "index" != "finish_reason" && "delta" != "finish_reason"
  {
    assert "index"[0] == 'i' && "delta"[0] == 'd' && "finish_reason"[0] == 'f';
  }

  lemma ChoiceView(dialect: Dialect, d: Delta)
    ensures var v := ChoiceJson(dialect, d);
            && NumberOf(Member(v, "index")) == 0 && Member(v, "delta") == DeltaJson(dialect, d)
            && StringOf(Member(v, "finish_reason")) == if d.Closing? then "stop" else ""
  {
    var delta := DeltaJson(dialect, d);
    ChoiceKeys();
    forall key: string
      ensures Member(ChoiceJson(dialect, d), key)
           == if key == "index" then Num(0) else if key == "delta" then delta
              else if key == "finish_reason" && d.Closing? then Str("stop") else Null
    {
      ThreeMembers("index", Num(0), "delta", delta, "finish_reason", Str("stop"), key);
      ThreeMembers("", Null, "index", Num(0), "delta", delta, key);
      ThreeMembers("delta", delta, "finish_reason", Str("stop"), "index", Num(0), key);
      ThreeMembers("", Null, "delta", delta, "index", Num(0), key);
    }
  }

  lemma ChunkMember(dialect: Dialect, m: Meta, d: Delta, key: string)
    ensures Member(Chunk(dialect, m, d), key)
         == if key == "id" then Str(m.id) else if key == "object" then Str(KIND)
            else if key == "created" then Num(m.created) else if key == "model" then Str(m.model)
            else if key == "choices" then Arr(Item(ChoiceJson(dialect, d), NoItems)) else Null
  {
    var choices := Arr(Item(ChoiceJson(dialect, d), NoItems));
    assert "id"[0] == 'i' && "object"[0] == 'o' && "model"[0] == 'm' && "choices"[1] == 'h' && "created"[1] == 'r';
    FiveMembers("id", Str(m.id), "object", Str(KIND), "created", Num(m.created), "model", Str(m.model),
                "choices", choices, key);
    FiveMembers("choices", choices, "created", Num(m.created), "id", Str(m.id), "model", Str(m.model),
                "object", Str(KIND), key);
  }

  /** A typed client cannot tell a replayed chunk from a live one: the assistant's role comes with the first chunk, the
      text with the others, and the reason to finish with the last. */
  lemma SameView(dialect: Dialect, m: Meta, d: Delta)
    ensures ViewOf(Chunk(dialect, m, d))
         == ClientView(m.id, "chat.completion.chunk", m.created, m.model, 0, if d.Role? then "assistant" else "",
                       TextOf(d), if d.Closing? then "stop" else "")
  {
    var v := Chunk(dialect, m, d);
    ChunkMember(dialect, m, d, "id");
    ChunkMember(dialect, m, d, "object");
    ChunkMember(dialect, m, d, "created");
    ChunkMember(dialect, m, d, "model");
    ChunkMember(dialect, m, d, "choices");
    ChoiceView(dialect, d);
    DeltaMember(dialect, d, "role");
    DeltaMember(dialect, d, "content");
  }
}
