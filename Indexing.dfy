/**
 * Indexing of JSON files: the file-scoped bookmark tag (`findBookmarkTagFirst`), the
 * per-file `ParseContext`, and the walk that turns every JSON object into one document,
 * nested objects first, with fields chosen by the type of each value. The Lucene index
 * writer is an append-only list of documents.
 */
module Indexing {
  import opened Wrappers

  // ---------------------------------------------------------------------------
  // JSON values as the parser hands them over
  // ---------------------------------------------------------------------------

  /** A parsed JSON value; an object's members are in the order its key set iterates. */
  datatype Json =
    | JObject(members: seq<Member>)
    | JArray(items: seq<Json>)
    | JString(s: string)
    | JLong(n: int)
    | JDouble(d: real)
    | JBool(b: bool)
    | JNull

  datatype Member = Member(key: string, value: Json)

  const BookmarkTag: string := "bookmark_tag"
  const Contents: string := "text"
  const FileName: string := "filename"
  const FilePath: string := "filepath"

  /** A parsed object never holds a key twice: its members come from a `HashMap`. */
  predicate UniqueKeys(members: seq<Member>) {
    forall i, j :: 0 <= i < j < |members| ==> members[i].key != members[j].key
  }

  /** `jsonObject.get(key)`: the value stored under `key`, if any. */
  function Lookup(members: seq<Member>, key: string): (r: Option<Json>)
    ensures r.Some? ==> exists i :: 0 <= i < |members| && members[i] == Member(key, r.value)
    ensures r.None? ==> forall i :: 0 <= i < |members| ==> members[i].key != key
    ensures UniqueKeys(members) ==> forall v :: r == Some(v) <==> Member(key, v) in members
  {
    if members == [] then None
    else if members[0].key == key then Some(members[0].value)
    else
      var r := Lookup(members[1..], key);
      assert forall i :: 0 < i < |members| ==> members[i] == members[1..][i - 1];
      r
  }

  // ---------------------------------------------------------------------------
  // The file-scoped bookmark tag
  // ---------------------------------------------------------------------------

  /**
   * `findBookmarkTagFirst(node)`: an object's own string `bookmark_tag` wins at once, even
   * when empty; otherwise the first non-empty tag among its values in key order, or among an
   * array's elements in order; `""` when there is none.
   */
  function FindBookmarkTagFirst(node: Json): string
    decreases node, 1
  {
    match node
    case JObject(ms) =>
      (match Lookup(ms, BookmarkTag)
       case Some(JString(s)) => s
       case _ => FindInMembers(node, 0))
    case JArray(items) => FindInItems(node, 0)
    case _ => ""
  }

  /** The loop over an object's values from position `i` on. */
  function FindInMembers(node: Json, i: nat): string
    requires node.JObject? && i <= |node.members|
    decreases node, 0, |node.members| - i
  {
    if i == |node.members| then ""
    else
      var found := FindBookmarkTagFirst(node.members[i].value);
      if found != "" then found else FindInMembers(node, i + 1)
  }

  /** The loop over an array's elements from position `i` on. */
  function FindInItems(node: Json, i: nat): string
    requires node.JArray? && i <= |node.items|
    decreases node, 0, |node.items| - i
  {
    if i == |node.items| then ""
    else
      var found := FindBookmarkTagFirst(node.items[i]);
      if found != "" then found else FindInItems(node, i + 1)
  }

  /**
   * The tags that are candidates, in document order: an object with a string
   * `bookmark_tag` contributes that tag and hides everything below it; any other node
   * contributes the candidates of its values or elements.
   */
  function Frontier(node: Json): seq<string>
    decreases node, 1
  {
    match node
    case JObject(ms) =>
      (match Lookup(ms, BookmarkTag)
       case Some(JString(s)) => [s]
       case _ => FrontierOfMembers(node, 0))
    case JArray(items) => FrontierOfItems(node, 0)
    case _ => []
  }

  function FrontierOfMembers(node: Json, i: nat): seq<string>
    requires node.JObject? && i <= |node.members|
    decreases node, 0, |node.members| - i
  {
    if i == |node.members| then []
    else Frontier(node.members[i].value) + FrontierOfMembers(node, i + 1)
  }

  function FrontierOfItems(node: Json, i: nat): seq<string>
    requires node.JArray? && i <= |node.items|
    decreases node, 0, |node.items| - i
  {
    if i == |node.items| then []
    else Frontier(node.items[i]) + FrontierOfItems(node, i + 1)
  }

  /** The first non-empty string of a list, or `""`. */
  function FirstNonEmpty(tags: seq<string>): (r: string)
    ensures r == "" || r in tags
    ensures r != "" ==> exists i :: 0 <= i < |tags| && tags[i] == r && forall j :: 0 <= j < i ==> tags[j] == ""
    ensures r == "" ==> forall j :: 0 <= j < |tags| ==> tags[j] == ""
  {
    if tags == [] then ""
    else if tags[0] != "" then tags[0]
    else
      var r := FirstNonEmpty(tags[1..]);
      assert forall j :: 0 < j < |tags| ==> tags[j] == tags[1..][j - 1];
      r
  }

  lemma FirstNonEmptyAppend(a: seq<string>, b: seq<string>)
    ensures FirstNonEmpty(a + b) == if FirstNonEmpty(a) != "" then FirstNonEmpty(a) else FirstNonEmpty(b)
  {
    if a != [] {
      assert (a + b)[1..] == a[1..] + b;
      FirstNonEmptyAppend(a[1..], b);
    } else {
      assert a + b == b;
    }
  }

  /**
   * The search returns the first non-empty candidate tag, or `""` when every candidate is
   * empty — except that an object's own string tag is returned as it is, even when empty.
   */
  lemma {:induction false} FindIsFirstCandidate(node: Json)
    ensures !(node.JObject? && Lookup(node.members, BookmarkTag) == Some(JString(""))) ==>
      FindBookmarkTagFirst(node) == FirstNonEmpty(Frontier(node))
    ensures node.JObject? && Lookup(node.members, BookmarkTag) == Some(JString("")) ==>
      FindBookmarkTagFirst(node) == "" && Frontier(node) == [""]
    decreases node, 1
  {
    match node
    case JObject(ms) =>
      match Lookup(ms, BookmarkTag) {
        case Some(JString(s)) =>
        case _ => FindInMembersIsFirst(node, 0);
      }
    case JArray(items) => FindInItemsIsFirst(node, 0);
    case _ =>
  }

  /** A subtree answers `""` exactly when its candidates are all empty. */
  lemma FindIsFirstNonEmptyOfFrontier(node: Json)
    ensures FindBookmarkTagFirst(node) == FirstNonEmpty(Frontier(node))
    decreases node, 2
  {
    FindIsFirstCandidate(node);
  }

  lemma {:induction false} FindInMembersIsFirst(node: Json, i: nat)
    requires node.JObject? && i <= |node.members|
    ensures FindInMembers(node, i) == FirstNonEmpty(FrontierOfMembers(node, i))
    decreases node, 0, |node.members| - i
  {
    if i < |node.members| {
      var child := node.members[i].value;
      FindIsFirstNonEmptyOfFrontier(child);
      FindInMembersIsFirst(node, i + 1);
      FirstNonEmptyAppend(Frontier(child), FrontierOfMembers(node, i + 1));
    }
  }

  lemma {:induction false} FindInItemsIsFirst(node: Json, i: nat)
    requires node.JArray? && i <= |node.items|
    ensures FindInItems(node, i) == FirstNonEmpty(FrontierOfItems(node, i))
    decreases node, 0, |node.items| - i
  {
    if i < |node.items| {
      var child := node.items[i];
      FindIsFirstNonEmptyOfFrontier(child);
      FindInItemsIsFirst(node, i + 1);
      FirstNonEmptyAppend(Frontier(child), FrontierOfItems(node, i + 1));
    }
  }

  /**
   * The tag found for a file is a candidate tag of the tree, every candidate before it is
   * empty, and it is `""` exactly when all candidates are empty (in particular when the tree
   * holds no string `bookmark_tag` at all).
   */
  lemma FileTag(root: Json)
    ensures var tag := FindBookmarkTagFirst(root);
      && (tag == "" <==> forall j :: 0 <= j < |Frontier(root)| ==> Frontier(root)[j] == "")
      && (tag != "" ==> exists i :: 0 <= i < |Frontier(root)| && Frontier(root)[i] == tag
                                   && forall j :: 0 <= j < i ==> Frontier(root)[j] == "")
  {
    FindIsFirstNonEmptyOfFrontier(root);
  }

  // ---------------------------------------------------------------------------
  // Documents
  // ---------------------------------------------------------------------------

  /** `new ParseContext(bookmarkTag)`: the file tag, `""` for `null`. */
  datatype ParseContext = ParseContext(bookmarkTag: string)

  function NewParseContext(bookmarkTag: Option<string>): (ctx: ParseContext)
    ensures bookmarkTag.None? ==> ctx.bookmarkTag == ""
    ensures bookmarkTag.Some? ==> ctx.bookmarkTag == bookmarkTag.value
  {
    ParseContext(if bookmarkTag.Some? then bookmarkTag.value else "")
  }

  /** The file being indexed: its name and its canonical path. */
  datatype File = File(name: string, canonicalPath: string)

  /** The Lucene field kinds the indexer creates. */
  datatype Field =
    | StringField(name: string, value: string)   // a single keyword, stored
    | TextField(name: string, value: string)     // tokenized text, stored
    | LongPoint(name: string, n: int)
    | DoublePoint(name: string, d: real)
    | StoredLong(name: string, n: int)
    | StoredDouble(name: string, d: real)

  datatype Document = Document(fields: seq<Field>)

  /** `Boolean.toString()` */
  function BoolText(b: bool): string {
    if b then "true" else "false"
  }

  /**
   * The fields one member adds, chosen by the type of its value: strings become text under
   * `"text"` and keywords elsewhere, numbers a point plus a stored value, booleans a keyword;
   * `null`, objects and arrays add none.
   */
  function FieldsFor(m: Member): (r: seq<Field>)
    ensures forall i :: 0 <= i < |r| ==> r[i].name == m.key
    ensures |r| == match m.value
      case JString(_) => 1
      case JBool(_) => 1
      case JLong(_) => 2
      case JDouble(_) => 2
      case _ => 0
    ensures forall i :: 0 <= i < |r| ==> (r[i].TextField? <==> m.key == Contents && m.value.JString?)
    ensures m.value.JString? && m.key == Contents ==> r == [TextField(m.key, m.value.s)]
    ensures m.value.JString? && m.key != Contents ==> r == [StringField(m.key, m.value.s)]
    ensures m.value.JBool? ==> r == [StringField(m.key, BoolText(m.value.b))]
    ensures m.value.JLong? ==> r[0].LongPoint? && r[1].StoredLong? && r[0].n == r[1].n == m.value.n
    ensures m.value.JDouble? ==> r[0].DoublePoint? && r[1].StoredDouble? && r[0].d == r[1].d == m.value.d
  {
    match m.value
    case JString(s) => if m.key == Contents then [TextField(m.key, s)] else [StringField(m.key, s)]
    case JLong(n) => [LongPoint(m.key, n), StoredLong(m.key, n)]
    case JDouble(d) => [DoublePoint(m.key, d), StoredDouble(m.key, d)]
    case JBool(b) => [StringField(m.key, BoolText(b))]
    case _ => []
  }

  /** The fields of the first `n` members, in key order. */
  function MemberFields(ms: seq<Member>, n: nat): seq<Field>
    requires n <= |ms|
  {
    if n == 0 then [] else MemberFields(ms, n - 1) + FieldsFor(ms[n - 1])
  }

  /** The universal fields of `createLuceneDocument` and the file's bookmark tag. */
  function Header(file: File, tag: string): seq<Field> {
    [StringField(FileName, file.name), StringField(FilePath, file.canonicalPath), StringField(BookmarkTag, tag)]
  }

  /** The document of one object. */
  function DocumentFor(ms: seq<Member>, file: File, tag: string): Document {
    Document(Header(file, tag) + MemberFields(ms, |ms|))
  }

  /** Every object of the tree, each after the objects nested in it (post-order). */
  function PostOrder(node: Json): seq<seq<Member>>
    decreases node, 1
  {
    match node
    case JObject(ms) => PostOrderOfMembers(node, |ms|) + [ms]
    case JArray(items) => PostOrderOfItems(node, |items|)
    case _ => []
  }

  /** The objects below the first `n` members of an object. */
  function PostOrderOfMembers(node: Json, n: nat): seq<seq<Member>>
    requires node.JObject? && n <= |node.members|
    decreases node, 0, n
  {
    if n == 0 then [] else PostOrderOfMembers(node, n - 1) + PostOrder(node.members[n - 1].value)
  }

  /** The objects below the first `n` elements of an array. */
  function PostOrderOfItems(node: Json, n: nat): seq<seq<Member>>
    requires node.JArray? && n <= |node.items|
    decreases node, 0, n
  {
    if n == 0 then [] else PostOrderOfItems(node, n - 1) + PostOrder(node.items[n - 1])
  }

  /** The documents a walk of `node` adds, one per object, in post-order. */
  function DocsOf(objects: seq<seq<Member>>, file: File, tag: string): (docs: seq<Document>)
    ensures |docs| == |objects|
  {
    seq(|objects|, i requires 0 <= i < |objects| => DocumentFor(objects[i], file, tag))
  }

  // ---------------------------------------------------------------------------
  // The indexer
  // ---------------------------------------------------------------------------

  /** The indexer; `docs` is what its `IndexWriter` has been given, in order. */
  class Indexer {
    var docs: seq<Document>

    constructor ()
      ensures docs == []
    {
      docs := [];
    }

    /** `writer.addDocument(d)` */
    method AddDocument(d: Document)
      modifies this
      ensures docs == old(docs) + [d]
    {
      docs := docs + [d];
    }

    /** `parseJSONFile`, once the file is parsed: one tag for the file, then the walk. */
    method ParseJsonFile(root: Json, file: File)
      modifies this
      ensures docs == old(docs) + DocsOf(PostOrder(root), file, FindBookmarkTagFirst(root))
    {
      var bookmark := FindBookmarkTagFirst(root);
      var ctx := NewParseContext(Some(bookmark));
      ParseJsonElement(root, file, ctx);
    }

    /** `parseJsonElement`: objects are indexed, arrays walked, scalars skipped. */
    method ParseJsonElement(element: Json, file: File, ctx: ParseContext)
      modifies this
      ensures docs == old(docs) + DocsOf(PostOrder(element), file, ctx.bookmarkTag)
      decreases element, 1
    {
      match element
      case JObject(_) =>
        ParseJsonObject(element, file, ctx);
      case JArray(items) =>
        for i := 0 to |items|
          invariant docs == old(docs) + DocsOf(PostOrderOfItems(element, i), file, ctx.bookmarkTag)
        {
          ghost var walked := DocsOf(PostOrderOfItems(element, i), file, ctx.bookmarkTag);
          ghost var nested := DocsOf(PostOrder(items[i]), file, ctx.bookmarkTag);
          ParseJsonElement(items[i], file, ctx);
          ItemsStep(element, i, file, ctx.bookmarkTag);
          Associative(old(docs), walked, nested);
        }
      case _ =>
        ScalarHasNoObjects(element);
    }

    /**
     * `parseJsonObject`: build the object's document field by field, walking nested objects
     * and arrays as they come, and add the document after them.
     */
    method ParseJsonObject(element: Json, file: File, ctx: ParseContext)
      requires element.JObject?
      modifies this
      ensures docs == old(docs) + DocsOf(PostOrder(element), file, ctx.bookmarkTag)
      decreases element, 0
    {
      var ms := element.members;
      var tag := ctx.bookmarkTag;
      var d := Header(file, tag);
      for i := 0 to |ms|
        invariant d == Header(file, tag) + MemberFields(ms, i)
        invariant docs == old(docs) + DocsOf(PostOrderOfMembers(element, i), file, tag)
      {
        var value := ms[i].value;
        Associative(Header(file, tag), MemberFields(ms, i), FieldsFor(ms[i]));
        d := AddFields(d, ms[i]);
        ghost var walked := DocsOf(PostOrderOfMembers(element, i), file, tag);
        ghost var nested := DocsOf(PostOrder(value), file, tag);
        ghost var before := docs;
        if value.JObject? || value.JArray? {
          ParseJsonElement(value, file, ctx);
        } else {
          ScalarHasNoObjects(value);
        }
        assert docs == before + nested;
        MembersStep(element, i, file, tag);
        Associative(old(docs), walked, nested);
        assert d == Header(file, tag) + MemberFields(ms, i + 1);
        assert docs == old(docs) + DocsOf(PostOrderOfMembers(element, i + 1), file, tag);
      }
      AddDocument(Document(d));
      ObjectDocs(element, file, tag);
    }
  }

  /** The type dispatch of `parseJsonObject`: add one member's fields to the document. */
  method AddFields(d: seq<Field>, m: Member) returns (d': seq<Field>)
    ensures d' == d + FieldsFor(m)
  {
    d' := d;
    match m.value {
      case JString(s) =>
        if m.key == Contents {
          d' := d' + [TextField(m.key, s)];
        } else {
          d' := d' + [StringField(m.key, s)];
        }
      case JLong(n) =>
        d' := d' + [LongPoint(m.key, n)];
        d' := d' + [StoredLong(m.key, n)];
      case JDouble(x) =>
        d' := d' + [DoublePoint(m.key, x)];
        d' := d' + [StoredDouble(m.key, x)];
      case JBool(b) =>
        d' := d' + [StringField(m.key, BoolText(b))];
      case _ =>
    }
  }

  /** The documents of the first `i + 1` members' subtrees: those of the first `i`, then the next. */
  lemma MembersStep(element: Json, i: nat, file: File, tag: string)
    requires element.JObject? && i < |element.members|
    ensures DocsOf(PostOrderOfMembers(element, i + 1), file, tag)
         == DocsOf(PostOrderOfMembers(element, i), file, tag) + DocsOf(PostOrder(element.members[i].value), file, tag)
  {
    DocsOfAppend(PostOrderOfMembers(element, i), PostOrder(element.members[i].value), file, tag);
  }

  lemma ItemsStep(element: Json, i: nat, file: File, tag: string)
    requires element.JArray? && i < |element.items|
    ensures DocsOf(PostOrderOfItems(element, i + 1), file, tag)
         == DocsOf(PostOrderOfItems(element, i), file, tag) + DocsOf(PostOrder(element.items[i]), file, tag)
  {
    DocsOfAppend(PostOrderOfItems(element, i), PostOrder(element.items[i]), file, tag);
  }

  /** A scalar holds no object. */
  lemma ScalarHasNoObjects(v: Json)
    requires !v.JObject? && !v.JArray?
    ensures PostOrder(v) == []
  {
  }

  /** An object's documents: those of its members' subtrees, then its own. */
  lemma ObjectDocs(element: Json, file: File, tag: string)
    requires element.JObject?
    ensures DocsOf(PostOrder(element), file, tag)
         == DocsOf(PostOrderOfMembers(element, |element.members|), file, tag) + [DocumentFor(element.members, file, tag)]
  {
    var ms := element.members;
    assert DocsOf([ms], file, tag) == [DocumentFor(ms, file, tag)];
    DocsOfAppend(PostOrderOfMembers(element, |ms|), [ms], file, tag);
  }

  lemma Associative<T>(a: seq<T>, b: seq<T>, c: seq<T>)
    ensures a + (b + c) == (a + b) + c
  {
  }

  lemma DocsOfAppend(a: seq<seq<Member>>, b: seq<seq<Member>>, file: File, tag: string)
    ensures DocsOf(a + b, file, tag) == DocsOf(a, file, tag) + DocsOf(b, file, tag)
  {
  }

  // ---------------------------------------------------------------------------
  // What the walk promises
  // ---------------------------------------------------------------------------

  /**
   * The object at position `i` of a post-order sequence ends a contiguous run that is
   * exactly the post-order of that object on its own.
   */
  predicate SegmentAt(p: seq<seq<Member>>, i: nat)
    requires i < |p|
  {
    var sub := PostOrder(JObject(p[i]));
    |sub| <= i + 1 && p[i + 1 - |sub| .. i + 1] == sub
  }

  lemma SegmentInPrefix(a: seq<seq<Member>>, b: seq<seq<Member>>, i: nat)
    requires i < |a| && SegmentAt(a, i)
    ensures SegmentAt(a + b, i)
  {
    var k := |PostOrder(JObject(a[i]))|;
    assert (a + b)[i + 1 - k .. i + 1] == a[i + 1 - k .. i + 1];
  }

  lemma SegmentInSuffix(a: seq<seq<Member>>, b: seq<seq<Member>>, j: nat)
    requires j < |b| && SegmentAt(b, j)
    ensures SegmentAt(a + b, |a| + j)
  {
    var i := |a| + j;
    var k := |PostOrder(JObject(b[j]))|;
    assert (a + b)[i] == b[j];
    assert (a + b)[i + 1 - k .. i + 1] == b[j + 1 - k .. j + 1];
  }

  /**
   * Post-order: the documents of the objects nested in any object `o` come immediately
   * before the document of `o`, as one contiguous run, in the order a walk of `o` alone
   * would add them.
   */
  lemma {:induction false} SubtreeSegment(node: Json, i: nat)
    requires i < |PostOrder(node)|
    ensures SegmentAt(PostOrder(node), i)
    decreases node, 1
  {
    match node
    case JObject(ms) =>
      var c := PostOrderOfMembers(node, |ms|);
      if i < |c| {
        MembersSegment(node, |ms|, i);
        SegmentInPrefix(c, [ms], i);
      } else {
        var p := PostOrder(node);
        assert p[i] == ms && p[0 .. i + 1] == p;
      }
    case JArray(items) =>
      ItemsSegment(node, |items|, i);
    case _ =>
  }

  lemma {:induction false} MembersSegment(node: Json, n: nat, i: nat)
    requires node.JObject? && n <= |node.members| && i < |PostOrderOfMembers(node, n)|
    ensures SegmentAt(PostOrderOfMembers(node, n), i)
    decreases node, 0, n
  {
    var prev := PostOrderOfMembers(node, n - 1);
    var v := node.members[n - 1].value;
    assert PostOrderOfMembers(node, n) == prev + PostOrder(v);
    if i < |prev| {
      MembersSegment(node, n - 1, i);
      SegmentInPrefix(prev, PostOrder(v), i);
    } else {
      SubtreeSegment(v, i - |prev|);
      SegmentInSuffix(prev, PostOrder(v), i - |prev|);
    }
  }

  lemma {:induction false} ItemsSegment(node: Json, n: nat, i: nat)
    requires node.JArray? && n <= |node.items| && i < |PostOrderOfItems(node, n)|
    ensures SegmentAt(PostOrderOfItems(node, n), i)
    decreases node, 0, n
  {
    var prev := PostOrderOfItems(node, n - 1);
    var v := node.items[n - 1];
    assert PostOrderOfItems(node, n) == prev + PostOrder(v);
    if i < |prev| {
      ItemsSegment(node, n - 1, i);
      SegmentInPrefix(prev, PostOrder(v), i);
    } else {
      SubtreeSegment(v, i - |prev|);
      SegmentInSuffix(prev, PostOrder(v), i - |prev|);
    }
  }

  /** The number of JSON objects in a tree, counted node by node. */
  function CountObjects(node: Json): nat
    decreases node, 1
  {
    match node
    case JObject(ms) => 1 + CountInMembers(node, 0)
    case JArray(items) => CountInItems(node, 0)
    case _ => 0
  }

  function CountInMembers(node: Json, i: nat): nat
    requires node.JObject? && i <= |node.members|
    decreases node, 0, |node.members| - i
  {
    if i == |node.members| then 0 else CountObjects(node.members[i].value) + CountInMembers(node, i + 1)
  }

  function CountInItems(node: Json, i: nat): nat
    requires node.JArray? && i <= |node.items|
    decreases node, 0, |node.items| - i
  {
    if i == |node.items| then 0 else CountObjects(node.items[i]) + CountInItems(node, i + 1)
  }

  /** Exactly one document per JSON object: arrays and scalars add none of their own. */
  lemma {:induction false} OneDocumentPerObject(node: Json)
    ensures |PostOrder(node)| == CountObjects(node)
    decreases node, 2
  {
    match node
    case JObject(ms) =>
      MembersCount(node, 0);
    case JArray(items) =>
      ItemsCount(node, 0);
    case _ =>
  }

  /** The members from `i` on hold as many objects as the post-order adds after the first `i`. */
  lemma {:induction false} MembersCount(node: Json, i: nat)
    requires node.JObject? && i <= |node.members|
    ensures |PostOrderOfMembers(node, |node.members|)| == |PostOrderOfMembers(node, i)| + CountInMembers(node, i)
    decreases node, 1, |node.members| - i
  {
    if i < |node.members| {
      OneDocumentPerObject(node.members[i].value);
      MembersCount(node, i + 1);
    }
  }

  lemma {:induction false} ItemsCount(node: Json, i: nat)
    requires node.JArray? && i <= |node.items|
    ensures |PostOrderOfItems(node, |node.items|)| == |PostOrderOfItems(node, i)| + CountInItems(node, i)
    decreases node, 1, |node.items| - i
  {
    if i < |node.items| {
      OneDocumentPerObject(node.items[i]);
      ItemsCount(node, i + 1);
    }
  }

  /** The first field of a document with the given name. */
  function FirstFieldNamed(fields: seq<Field>, name: string): (r: Option<Field>)
    ensures r.Some? ==> r.value in fields && r.value.name == name
    ensures r.None? ==> forall i :: 0 <= i < |fields| ==> fields[i].name != name
  {
    if fields == [] then None
    else if fields[0].name == name then Some(fields[0])
    else
      var r := FirstFieldNamed(fields[1..], name);
      assert forall i :: 0 < i < |fields| ==> fields[i] == fields[1..][i - 1];
      r
  }

  /**
   * Every document of a file carries the file's tag as its first `bookmark_tag` field, and
   * its file name and path, whatever the object itself holds.
   */
  lemma DocumentsCarryFileTag(objects: seq<seq<Member>>, file: File, tag: string)
    ensures forall i :: 0 <= i < |objects| ==>
      && FirstFieldNamed(DocsOf(objects, file, tag)[i].fields, BookmarkTag) == Some(StringField(BookmarkTag, tag))
      && FirstFieldNamed(DocsOf(objects, file, tag)[i].fields, FileName) == Some(StringField(FileName, file.name))
      && FirstFieldNamed(DocsOf(objects, file, tag)[i].fields, FilePath) == Some(StringField(FilePath, file.canonicalPath))
  {
    forall i | 0 <= i < |objects|
      ensures FirstFieldNamed(DocsOf(objects, file, tag)[i].fields, BookmarkTag) == Some(StringField(BookmarkTag, tag))
    {
      var fs := DocsOf(objects, file, tag)[i].fields;
      assert |FileName| != |BookmarkTag| && |FilePath| != |BookmarkTag|;
      assert fs[0].name == FileName && fs[1..][0].name == FilePath;
      assert fs[1..][1..][0] == StringField(BookmarkTag, tag);
      assert FirstFieldNamed(fs[1..][1..], BookmarkTag) == Some(StringField(BookmarkTag, tag));
      assert FirstFieldNamed(fs[1..], BookmarkTag) == Some(StringField(BookmarkTag, tag));
    }
  }

  /**
   * An object that holds its own string `bookmark_tag` gets a second `bookmark_tag` field,
   * with its own value, after the file's tag.
   */
  lemma OwnTagIsSecondField(ms: seq<Member>, file: File, tag: string, i: nat)
    requires i < |ms| && ms[i].key == BookmarkTag && ms[i].value.JString?
    ensures var fs := DocumentFor(ms, file, tag).fields;
      exists j :: 3 <= j < |fs| && fs[j] == StringField(BookmarkTag, ms[i].value.s)
  {
    MemberFieldsHas(ms, |ms|, i);
    var fs := DocumentFor(ms, file, tag).fields;
    var j :| 0 <= j < |MemberFields(ms, |ms|)| && MemberFields(ms, |ms|)[j] == StringField(BookmarkTag, ms[i].value.s);
    assert fs[3 + j] == MemberFields(ms, |ms|)[j];
  }

  lemma {:induction false} MemberFieldsHas(ms: seq<Member>, n: nat, i: nat)
    requires i < n <= |ms| && ms[i].key == BookmarkTag && ms[i].value.JString?
    ensures StringField(BookmarkTag, ms[i].value.s) in MemberFields(ms, n)
  {
    if i < n - 1 {
      MemberFieldsHas(ms, n - 1, i);
    } else {
      assert BookmarkTag != Contents;
      assert FieldsFor(ms[i]) == [StringField(BookmarkTag, ms[i].value.s)];
    }
  }
}
