/**
  The query language over archived posts: a post with its own attributes, the schema that says which SQL column
  holds which of them, and what each documented field and operator asks of a post. All of it is written apart from
  the compiler; the main result is that the compiled clause selects exactly the posts that answer every filter.
 */
module DslRows {

  import opened Dsl
  import opened DslMeaning
  import opened DslTheorems
  import opened Options

  // ----- Posts

  datatype Attribute =
    | BoardCode | SiteName | ThreadId | PostId | AuthorName | Tripcode | PosterId | Country | CountryFlag
    | ThreadSubject | FileName | PostedAt | Sticky | Locked | Archived | Sage | Comment

  datatype Attachment = Attachment(mimeType: Option<string>)

  /** An archived post joined with its thread, board and site; an attribute may be null. */
  datatype Post = Post(attribute: Attribute -> Option<Value>, files: seq<Attachment>, quoted: seq<Value>)

  /** How the database compares two values, matches a pattern, and searches a comment for words. */
  datatype Database = Database(
    order: (Value, Value) -> int,
    like: (Value, Value) -> bool,
    search: (Option<Value>, Value) -> Truth)

  /** The SQL name of each attribute's column. */
  function SqlName(a: Attribute): string {
    match a
    case BoardCode => "b.code"
    case SiteName => "st.name"
    case ThreadId => "t.thread_native_id"
    case PostId => "p.post_native_id"
    case AuthorName => "p.author_name"
    case Tripcode => "p.tripcode"
    case PosterId => "p.poster_id"
    case Country => "p.country"
    case CountryFlag => "p.flag"
    case ThreadSubject => "t.subject"
    case FileName => "f.original_filename"
    case PostedAt => "p.timestamp"
    case Sticky => "t.sticky"
    case Locked => "t.locked"
    case Archived => "t.archived"
    case Sage => "p.sage"
    case Comment => "p.comment_parsed"
  }

  ghost predicate HasVideoFile(p: Post) {
    exists i :: 0 <= i < |p.files| && p.files[i].mimeType.Some? && "video/" <= p.files[i].mimeType.value
  }

  ghost predicate QuotesPost(p: Post, v: Value, db: Database) {
    exists i :: 0 <= i < |p.quoted| && db.order(p.quoted[i], v) == 0
  }

  /** The row is that post's: every column holds its attribute, and the subqueries look at its files and quotes. */
  ghost predicate Shows(row: Row, p: Post, db: Database) {
    && (forall a :: row.cells(SqlName(a)) == p.attribute(a))
    && (row.hasFile <==> p.files != [])
    && (row.hasVideo <==> HasVideoFile(p))
    && (forall v :: row.quotes(v) <==> QuotesPost(p, v, db))
    && (forall v :: row.search(v) == db.search(p.attribute(Comment), v))
    && row.order == db.order
    && row.like == db.like
  }

  // ----- What fields and operators ask

  datatype Target = Holds(a: Attribute) | AnyFile | VideoFile

  /** The names of a field, in lower case. */
  function Spellings(s: Target): seq<string> {
    match s
    case AnyFile => ["has_image", "hasimage", "image", "has_file", "hasfile", "file"]
    case VideoFile => ["has_video", "hasvideo", "video"]
    case Holds(a) =>
      match a
      case BoardCode => ["board"]
      case SiteName => ["site"]
      case ThreadId => ["thread", "thread_id"]
      case PostId => ["post", "post_id"]
      case AuthorName => ["author", "name", "tripcode"]
      case Tripcode => ["trip"]
      case PosterId => ["poster", "poster_id"]
      case Country => ["country"]
      case CountryFlag => ["flag"]
      case ThreadSubject => ["subject"]
      case FileName => ["filename", "file_name"]
      case PostedAt => ["before", "after", "date", "timestamp", "time"]
      case Sticky => ["sticky"]
      case Locked => ["locked"]
      case Archived => ["archived"]
      case Sage => ["sage"]
      case Comment => ["text", "content", "body", "comment"]
  }

  function ColumnFor(s: Target): Column {
    match s
    case Holds(a) => Named(SqlName(a))
    case AnyFile => HasFile
    case VideoFile => HasVideo
  }

  // ----- The compiler looks up each field by that table

  lemma BoardField(field: string)
    requires Lower(field) in Spellings(Holds(BoardCode))
    ensures ColumnOf(field) == Some(ColumnFor(Holds(BoardCode)))
  {
    hide Lower;
  }

  lemma SiteField(field: string)
    requires Lower(field) in Spellings(Holds(SiteName))
    ensures ColumnOf(field) == Some(ColumnFor(Holds(SiteName)))
  {
    hide Lower;
  }

  lemma ThreadField(field: string)
    requires Lower(field) in Spellings(Holds(ThreadId))
    ensures ColumnOf(field) == Some(ColumnFor(Holds(ThreadId)))
  {
    hide Lower;
  }

  lemma PostField(field: string)
    requires Lower(field) in Spellings(Holds(PostId))
    ensures ColumnOf(field) == Some(ColumnFor(Holds(PostId)))
  {
    hide Lower;
  }

  lemma AuthorField(field: string)
    requires Lower(field) in Spellings(Holds(AuthorName))
    ensures ColumnOf(field) == Some(ColumnFor(Holds(AuthorName)))
  {
    hide Lower;
  }

  lemma TripField(field: string)
    requires Lower(field) in Spellings(Holds(Tripcode))
    ensures ColumnOf(field) == Some(ColumnFor(Holds(Tripcode)))
  {
    hide Lower;
  }

  lemma PosterField(field: string)
    requires Lower(field) in Spellings(Holds(PosterId))
    ensures ColumnOf(field) == Some(ColumnFor(Holds(PosterId)))
  {
    hide Lower;
  }

  lemma CountryField(field: string)
    requires Lower(field) in Spellings(Holds(Country))
    ensures ColumnOf(field) == Some(ColumnFor(Holds(Country)))
  {
    hide Lower;
  }

  lemma FlagField(field: string)
    requires Lower(field) in Spellings(Holds(CountryFlag))
    ensures ColumnOf(field) == Some(ColumnFor(Holds(CountryFlag)))
  {
    hide Lower;
  }

  lemma SubjectField(field: string)
    requires Lower(field) in Spellings(Holds(ThreadSubject))
    ensures ColumnOf(field) == Some(ColumnFor(Holds(ThreadSubject)))
  {
    hide Lower;
  }

  lemma FileField(field: string)
    requires Lower(field) in Spellings(AnyFile)
    ensures ColumnOf(field) == Some(ColumnFor(AnyFile))
  {
    hide Lower;
  }

  lemma VideoField(field: string)
    requires Lower(field) in Spellings(VideoFile)
    ensures ColumnOf(field) == Some(ColumnFor(VideoFile))
  {
    hide Lower;
  }

  lemma FileNameField(field: string)
    requires Lower(field) in Spellings(Holds(FileName))
    ensures ColumnOf(field) == Some(ColumnFor(Holds(FileName)))
  {
    hide Lower;
  }

  lemma DateField(field: string)
    requires Lower(field) == "before" || Lower(field) == "after" || Lower(field) == "date"
    ensures ColumnOf(field) == Some(ColumnFor(Holds(PostedAt)))
  {
    hide Lower;
  }

  lemma ClockField(field: string)
    requires Lower(field) == "timestamp" || Lower(field) == "time"
    ensures ColumnOf(field) == Some(ColumnFor(Holds(PostedAt)))
  {
    hide Lower;
  }

  lemma TimeField(field: string)
    requires Lower(field) in Spellings(Holds(PostedAt))
    ensures ColumnOf(field) == Some(ColumnFor(Holds(PostedAt)))
  {
    hide Lower, ColumnOf;
    if Lower(field) == "timestamp" || Lower(field) == "time" {
      ClockField(field);
    } else {
      DateField(field);
    }
  }

  lemma StickyField(field: string)
    requires Lower(field) in Spellings(Holds(Sticky))
    ensures ColumnOf(field) == Some(ColumnFor(Holds(Sticky)))
  {
    hide Lower;
  }

  lemma LockedField(field: string)
    requires Lower(field) in Spellings(Holds(Locked))
    ensures ColumnOf(field) == Some(ColumnFor(Holds(Locked)))
  {
    hide Lower;
  }

  lemma ArchivedField(field: string)
    requires Lower(field) in Spellings(Holds(Archived))
    ensures ColumnOf(field) == Some(ColumnFor(Holds(Archived)))
  {
    hide Lower;
  }

  lemma SageField(field: string)
    requires Lower(field) in Spellings(Holds(Sage))
    ensures ColumnOf(field) == Some(ColumnFor(Holds(Sage)))
  {
    hide Lower;
  }

  lemma SpelledText(field: string)
    requires Lower(field) == "text"
    ensures ColumnOf(field) == Some(ColumnFor(Holds(Comment)))
  {
    hide Lower;
  }

  lemma SpelledContent(field: string)
    requires Lower(field) == "content"
    ensures ColumnOf(field) == Some(ColumnFor(Holds(Comment)))
  {
    hide Lower;
  }

  lemma SpelledBody(field: string)
    requires Lower(field) == "body"
    ensures ColumnOf(field) == Some(ColumnFor(Holds(Comment)))
  {
    hide Lower;
  }

  lemma SpelledComment(field: string)
    requires Lower(field) == "comment"
    ensures ColumnOf(field) == Some(ColumnFor(Holds(Comment)))
  {
    hide Lower;
  }

  lemma CommentField(field: string)
    requires Lower(field) in Spellings(Holds(Comment))
    ensures ColumnOf(field) == Some(ColumnFor(Holds(Comment)))
  {
    hide Lower, ColumnOf;
    if Lower(field) == "text" {
      SpelledText(field);
    } else if Lower(field) == "content" {
      SpelledContent(field);
    } else if Lower(field) == "body" {
      SpelledBody(field);
    } else {
      SpelledComment(field);
    }
  }

  lemma QuoteField(field: string)
    requires Lower(field) == "quote"
    ensures ColumnOf(field) == Some(Quotes)
  {
    hide Lower;
  }

  /** Every documented field is looked up in the column of the attribute it names, however its case is written. */
  lemma FieldColumn(field: string, s: Target)
    requires Lower(field) in Spellings(s)
    ensures ColumnOf(field) == Some(ColumnFor(s))
  {
    hide Lower, ColumnOf, Spellings, ColumnFor;
    match s
    case AnyFile => FileField(field);
    case VideoFile => VideoField(field);
    case Holds(a) =>
      match a
      case BoardCode => BoardField(field);
      case SiteName => SiteField(field);
      case ThreadId => ThreadField(field);
      case PostId => PostField(field);
      case AuthorName => AuthorField(field);
      case Tripcode => TripField(field);
      case PosterId => PosterField(field);
      case Country => CountryField(field);
      case CountryFlag => FlagField(field);
      case ThreadSubject => SubjectField(field);
      case FileName => FileNameField(field);
      case PostedAt => TimeField(field);
      case Sticky => StickyField(field);
      case Locked => LockedField(field);
      case Archived => ArchivedField(field);
      case Sage => SageField(field);
      case Comment => CommentField(field);
  }

  ghost predicate SameButCase(s: string, t: string) {
    && |s| == |t|
    && forall i :: 0 <= i < |s| ==>
         s[i] == t[i]
         || ('A' <= s[i] <= 'Z' && t[i] as int == s[i] as int + 32)
         || ('A' <= t[i] <= 'Z' && s[i] as int == t[i] as int + 32)
  }

  /** A field's case does not matter, and a name without capitals is looked up as it stands. */
  lemma CaseIgnored(s: string, t: string)
    requires SameButCase(s, t)
    ensures ColumnOf(s) == ColumnOf(t)
    ensures (forall i :: 0 <= i < |s| ==> !('A' <= s[i] <= 'Z')) ==> Lower(s) == s
  {
    hide ColumnOf;
    assert Lower(s) == Lower(t);
    SameLower(s, t);
  }

  lemma SameLower(s: string, t: string)
    requires Lower(s) == Lower(t)
    ensures ColumnOf(s) == ColumnOf(t)
  {
    hide Lower;
  }

  /** No two attributes share a column, so every post has a row. */
  lemma NamesDistinct(a: Attribute, b: Attribute)
    requires SqlName(a) == SqlName(b)
    ensures a == b
  {
    assert |SqlName(a)| == |SqlName(b)| && SqlName(a)[2] == SqlName(b)[2];
  }

  predicate Bears(a: Attribute, name: string) {
    SqlName(a) == name
  }

  ghost function AttributeNamed(name: string): Option<Attribute> {
    if exists a :: Bears(a, name) then
      var a :| Bears(a, name);
      Some(a)
    else None
  }

  lemma NameFinds(a: Attribute)
    ensures AttributeNamed(SqlName(a)) == Some(a)
  {
    hide SqlName;
    assert Bears(a, SqlName(a));
    var b := AttributeNamed(SqlName(a)).value;
    NamesDistinct(b, a);
  }

  ghost function CellsOf(p: Post): string -> Option<Value> {
    name => if AttributeNamed(name).Some? then p.attribute(AttributeNamed(name).value) else None
  }

  ghost function RowOf(p: Post, db: Database): Row {
    Row(CellsOf(p), p.files != [], HasVideoFile(p), v => QuotesPost(p, v, db),
        v => db.search(p.attribute(Comment), v), db.order, db.like)
  }

  lemma RowShows(p: Post, db: Database)
    ensures Shows(RowOf(p, db), p, db)
  {
    hide SqlName, AttributeNamed;
    forall a
      ensures RowOf(p, db).cells(SqlName(a)) == p.attribute(a)
    {
      NameFinds(a);
    }
  }

  // ----- What a filter asks of a post

  /** The field names that target, and the operator applies to it: subqueries have no order. */
  predicate Asks(f: Filter, s: Target) {
    && Lower(f.field) in Spellings(s)
    && (f.operator in ["~", ":", "=", "!"] || (s.Holds? && f.operator in [">", ">=", "<", "<="]))
  }

  ghost predicate Fits(operator: string, x: Value, v: Value, db: Database) {
    if operator == "~" then db.like(x, Text("%" + v.Shown() + "%"))
    else if operator == "!" then db.order(x, v) != 0
    else if operator == ">" then db.order(x, v) > 0
    else if operator == ">=" then db.order(x, v) >= 0
    else if operator == "<" then db.order(x, v) < 0
    else if operator == "<=" then db.order(x, v) <= 0
    else db.order(x, v) == 0
  }

  /** Whether the post has such files, for ":" and "="; "!" turns it round, "~" matches its printed truth. */
  ghost function FilesAnswer(operator: string, has: bool, v: Value, db: Database): Truth {
    if operator == "~" then Of(db.like(Value.Flag(has), Text("%" + v.Shown() + "%")))
    else if operator == "!" then Of(!has)
    else Of(has)
  }

  ghost function PlainAnswer(f: Filter, s: Target, p: Post, db: Database): Truth {
    if f.field in ["text", "content", "body", "comment"] && f.operator in ["~", ":", "="] then
      db.search(p.attribute(Comment), f.value)
    else
      match s
      case AnyFile => FilesAnswer(f.operator, p.files != [], f.value, db)
      case VideoFile => FilesAnswer(f.operator, HasVideoFile(p), f.value, db)
      case Holds(a) =>
        match p.attribute(a)
        case None => Unknown
        case Some(x) => Of(Fits(f.operator, x, f.value, db))
  }

  /** A filter's answer: unknown on a null attribute, and turned round by its negation. */
  ghost function Answer(f: Filter, s: Target, p: Post, db: Database): Truth {
    if f.negate then Complement(PlainAnswer(f, s, p, db)) else PlainAnswer(f, s, p, db)
  }

  lemma AskedIsKept(f: Filter, s: Target)
    requires Asks(f, s)
    ensures IsKept(f) && ColumnOf(f.field) == Some(ColumnFor(s)) && !AsksForQuotes(f)
  {
    FieldColumn(f.field, s);
    hide ColumnOf, Lower, Spellings, SqlName;
  }

  lemma TextFields(field: string)
    ensures IsTextField(field) <==> field in ["text", "content", "body", "comment"]
  {
  }

  lemma TextAnswers(f: Filter, s: Target, quoted: Option<Value>, row: Row, p: Post, db: Database)
    requires IsKept(f) && Shows(row, p, db)
    requires f.field in ["text", "content", "body", "comment"] && f.operator in ["~", ":", "="]
    ensures Positive(f, quoted, row) == Some(PlainAnswer(f, s, p, db))
  {
    TextFields(f.field);
    hide ColumnOf, SqlName, IsTextField, HasVideoFile;
  }

  lemma HeldAnswers(f: Filter, a: Attribute, quoted: Option<Value>, row: Row, p: Post, db: Database)
    requires IsKept(f) && Asks(f, Holds(a)) && Shows(row, p, db) && ColumnOf(f.field) == Some(Named(SqlName(a)))
    requires !(f.field in ["text", "content", "body", "comment"] && f.operator in ["~", ":", "="])
    ensures Positive(f, quoted, row) == Some(PlainAnswer(f, Holds(a), p, db))
  {
    TextFields(f.field);
    hide ColumnOf, Lower, Spellings, SqlName, IsTextField, HasVideoFile, IsKept;
    assert row.cells(SqlName(a)) == p.attribute(a);
  }

  lemma FilesAnswered(f: Filter, s: Target, quoted: Option<Value>, row: Row, p: Post, db: Database)
    requires IsKept(f) && Asks(f, s) && !s.Holds? && Shows(row, p, db) && ColumnOf(f.field) == Some(ColumnFor(s))
    requires !(f.field in ["text", "content", "body", "comment"] && f.operator in ["~", ":", "="])
    ensures Positive(f, quoted, row) == Some(PlainAnswer(f, s, p, db))
  {
    TextFields(f.field);
    hide ColumnOf, Lower, Spellings, SqlName, IsTextField, HasVideoFile, IsKept;
  }

  lemma PositiveAnswers(f: Filter, s: Target, quoted: Option<Value>, row: Row, p: Post, db: Database)
    requires Asks(f, s) && Shows(row, p, db)
    ensures IsKept(f)
    ensures Positive(f, quoted, row) == Some(PlainAnswer(f, s, p, db))
  {
    AskedIsKept(f, s);
    hide ColumnOf, Asks, Shows, SqlName, IsKept, Positive, PlainAnswer;
    if f.field in ["text", "content", "body", "comment"] && f.operator in ["~", ":", "="] {
      TextAnswers(f, s, quoted, row, p, db);
    } else if s.Holds? {
      HeldAnswers(f, s.a, quoted, row, p, db);
    } else {
      FilesAnswered(f, s, quoted, row, p, db);
    }
  }

  /** What the compiler keeps of a filter means exactly its answer. */
  lemma MeaningAnswers(f: Filter, s: Target, quoted: Option<Value>, row: Row, p: Post, db: Database)
    requires Asks(f, s) && Shows(row, p, db)
    ensures IsKept(f) && !AsksForQuotes(f)
    ensures Meaning(f, quoted, row) == Some(Answer(f, s, p, db))
  {
    hide IsKept, AsksForQuotes, Asks, Shows, Positive, PlainAnswer;
    AskedIsKept(f, s);
    PositiveAnswers(f, s, quoted, row, p, db);
  }

  /** The clause of one filter has the filter's answer on the row of every post. */
  lemma FilterAnswers(f: Filter, s: Target, p: Post, db: Database)
    requires Asks(f, s)
    ensures RowTruth(WhereText([f]), Bound([f]), RowOf(p, db)) == Some(Answer(f, s, p, db))
  {
    hide RowTruth, WhereText, Bound, Asks, Answer, RowOf, Shows, AsksForQuotes, IsKept, Meaning;
    var row := RowOf(p, db);
    RowShows(p, db);
    MeaningAnswers(f, s, First(Bound([f])), row, p, db);
    OneFilter(f, row);
  }

  /** The clause of any list of documented filters selects exactly the posts that answer every one of them. */
  lemma SelectedIff(filters: seq<Filter>, targets: seq<Target>, p: Post, db: Database)
    requires |targets| == |filters| && forall j :: 0 <= j < |filters| ==> Asks(filters[j], targets[j])
    ensures RowTruth(WhereText(filters), Bound(filters), RowOf(p, db)) == Some(Yes) <==>
            forall j :: 0 <= j < |filters| ==> Answer(filters[j], targets[j], p, db) == Yes
  {
    hide RowTruth, WhereText, Bound, Asks, Answer, RowOf, Shows, AsksForQuotes, IsKept, Meaning;
    var row := RowOf(p, db);
    RowShows(p, db);
    forall j | 0 <= j < |filters|
      ensures IsKept(filters[j]) && !AsksForQuotes(filters[j])
      ensures Meaning(filters[j], None, row) == Some(Answer(filters[j], targets[j], p, db))
    {
      MeaningAnswers(filters[j], targets[j], None, row, p, db);
    }
    RowSelectedIff(filters, None, row);
  }

  /** A quote filter ignores its own value: it asks whether the post quotes the statement's first argument. */
  lemma QuoteMeans(f: Filter, first: Option<Value>, p: Post, db: Database)
    requires Lower(f.field) == "quote" && f.operator in [":", "="] && !f.negate
    ensures IsKept(f) && Vals(ToSql(f, 1)) == []
    ensures Meaning(f, first, RowOf(p, db)) ==
            if first == None then None else Some(Of(QuotesPost(p, first.value, db)))
  {
    QuoteField(f.field);
    hide ColumnOf, Lower, IsTextField, RowOf;
    if IsTextField(f.field) {
      TextIsNotQuote(f.field);
    }
    RowShows(p, db);
    var row := RowOf(p, db);
    assert first.Some? ==> (row.quotes(first.value) <==> QuotesPost(p, first.value, db));
  }
}
