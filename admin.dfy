/** The bulk actions of the blog administration pages: blocking blogs,
    folding an external stylesheet into a blog's custom styles, and
    deleting old page hits. */
module Admin {
  import opened Strings

  /** An account; only its active flag is touched here. */
  class User {
    var isActive: bool

    constructor (isActive: bool)
      ensures this.isActive == isActive
    {
      this.isActive := isActive;
    }
  }

  /** A blog record with the fields the actions read or write. */
  class Blog {
    var blocked: bool
    var externalStylesheet: string
    var customStyles: string
    var overwriteStyles: bool
    const user: User

    constructor (user: User, blocked: bool, externalStylesheet: string, customStyles: string, overwriteStyles: bool)
      ensures this.user == user && this.blocked == blocked
      ensures this.externalStylesheet == externalStylesheet && this.customStyles == customStyles
      ensures this.overwriteStyles == overwriteStyles
    {
      this.user := user;
      this.blocked := blocked;
      this.externalStylesheet := externalStylesheet;
      this.customStyles := customStyles;
      this.overwriteStyles := overwriteStyles;
    }
  }

  /** Blocks every selected blog and deactivates its owner; the styling
      fields stay as they were. */
  method BlockBlog(queryset: seq<Blog>)
    modifies set blog | blog in queryset
    modifies set blog | blog in queryset :: blog.user
    ensures forall blog :: blog in queryset ==> blog.blocked && !blog.user.isActive
    ensures forall blog :: blog in queryset ==>
      && blog.externalStylesheet == old(blog.externalStylesheet)
      && blog.customStyles == old(blog.customStyles)
      && blog.overwriteStyles == old(blog.overwriteStyles)
  {
    for i := 0 to |queryset|
      invariant forall j :: 0 <= j < i ==> queryset[j].blocked && !queryset[j].user.isActive
      invariant forall blog :: blog in queryset ==>
        && blog.externalStylesheet == old(blog.externalStylesheet)
        && blog.customStyles == old(blog.customStyles)
        && blog.overwriteStyles == old(blog.overwriteStyles)
    {
      var blog := queryset[i];
      blog.user.isActive := false;
      blog.blocked := true;
    }
  }

  const ImportOpen := "@import '"
  const ImportClose := "';\r\n\r\n"

  /** The stylesheet reference written into the `@import` rule: the
      external stylesheet with every "url(" removed, then every ")". */
  function ImportReference(externalStylesheet: string): (ref: string)
    ensures ')' !in ref
    ensures multiset(ref) <= multiset(externalStylesheet)
  {
    var unwrapped := RemoveAll(externalStylesheet, "url(");
    RemoveKeepsCharacters(externalStylesheet, "url(");
    RemoveChar(unwrapped, ')');
    RemoveAll(unwrapped, ")")
  }

  /** A stylesheet reference without "url(" or ")" is imported verbatim. */
  lemma ImportReferenceOfPlainPath(externalStylesheet: string)
    requires !Contains(externalStylesheet, "url(") && ')' !in externalStylesheet
    ensures ImportReference(externalStylesheet) == externalStylesheet
  {
    RemoveAbsent(externalStylesheet, "url(");
    AbsentChar(externalStylesheet, ')');
    RemoveAbsent(externalStylesheet, ")");
  }

  /** The migrated custom styles: an `@import` rule for the reference, a
      blank line, then the old custom styles. */
  function ImportRule(externalStylesheet: string, customStyles: string): string
  {
    ImportOpen + ImportReference(externalStylesheet) + ImportClose + customStyles
  }

  /** The migrated styles open with the `@import` of the reference and end
      with the old custom styles, unchanged. */
  lemma ImportRuleShape(externalStylesheet: string, customStyles: string)
    ensures var styles := ImportRule(externalStylesheet, customStyles);
      var ref := ImportReference(externalStylesheet);
      && |styles| == |ImportOpen| + |ref| + |ImportClose| + |customStyles|
      && styles[..|ImportOpen|] == ImportOpen
      && styles[|ImportOpen|..|ImportOpen| + |ref|] == ref
      && styles[|ImportOpen| + |ref|..|ImportOpen| + |ref| + |ImportClose|] == ImportClose
      && styles[|styles| - |customStyles|..] == customStyles
  {
  }

  /** A migrated reference may still contain "url(": removing the inner
      occurrence of "urlurl((" closes up an outer one. */
  lemma MigrationMayLeaveUrl()
    ensures Contains(ImportReference("urlurl(("), "url(")
  {
    RemoveIsSinglePass();
    AbsentChar("url(", ')');
    RemoveAbsent("url(", ")");
  }

  /** `blog` as the migration leaves it, compared with the state before
      the action: with a non-empty external stylesheet its custom styles
      gain the `@import` rule in front, the external stylesheet is cleared
      and the custom styles take precedence; otherwise nothing changes.
      Its blocked flag never changes. */
  twostate predicate MigratedFrom(blog: Blog)
    reads blog
  {
    && blog.blocked == old(blog.blocked)
    && if old(blog.externalStylesheet) != "" then
         && blog.customStyles == ImportRule(old(blog.externalStylesheet), old(blog.customStyles))
         && blog.externalStylesheet == ""
         && blog.overwriteStyles
       else
         && blog.customStyles == old(blog.customStyles)
         && blog.externalStylesheet == old(blog.externalStylesheet)
         && blog.overwriteStyles == old(blog.overwriteStyles)
  }

  /** The fields of `blog` the migration may write still hold their values
      from before the action. */
  twostate predicate Untouched(blog: Blog)
    reads blog
  {
    && blog.blocked == old(blog.blocked)
    && blog.customStyles == old(blog.customStyles)
    && blog.externalStylesheet == old(blog.externalStylesheet)
    && blog.overwriteStyles == old(blog.overwriteStyles)
  }

  /** Migrates every selected blog that has an external stylesheet. */
  method MigrateExternalStylesheet(queryset: seq<Blog>)
    requires forall i, j :: 0 <= i < j < |queryset| ==> queryset[i] != queryset[j]
    modifies set blog | blog in queryset
    ensures forall i :: 0 <= i < |queryset| ==> MigratedFrom(queryset[i])
  {
    for i := 0 to |queryset|
      invariant forall j :: 0 <= j < i ==> MigratedFrom(queryset[j])
      invariant forall j :: i <= j < |queryset| ==> Untouched(queryset[j])
    {
      var blog := queryset[i];
      if blog.externalStylesheet != "" {
        blog.customStyles := ImportRule(blog.externalStylesheet, blog.customStyles);
        blog.externalStylesheet := "";
        blog.overwriteStyles := true;
      }
    }
  }

  /** A page hit; `createdDate` is a day number. */
  datatype Hit = Hit(id: nat, postId: nat, ipAddress: string, createdDate: int)

  /** The age limit of the cleanup action, in days. */
  const RetentionDays := 7

  /** A hit the cleanup deletes: selected, and dated strictly before the
      cutoff day. */
  predicate Expired(hit: Hit, selected: set<nat>, cutoff: int)
  {
    hit.id in selected && hit.createdDate < cutoff
  }

  /** The rows left after deleting the expired ones, in their old order. */
  function Surviving(rows: seq<Hit>, selected: set<nat>, cutoff: int): (kept: seq<Hit>)
    ensures |kept| <= |rows|
    ensures forall hit :: hit in kept <==> hit in rows && !Expired(hit, selected, cutoff)
  {
    if rows == [] then []
    else if Expired(rows[0], selected, cutoff) then Surviving(rows[1..], selected, cutoff)
    else [rows[0]] + Surviving(rows[1..], selected, cutoff)
  }

  /** Deletion keeps order: filtering two runs of rows is filtering each. */
  lemma {:induction false} SurvivingAppend(a: seq<Hit>, b: seq<Hit>, selected: set<nat>, cutoff: int)
    ensures Surviving(a + b, selected, cutoff) == Surviving(a, selected, cutoff) + Surviving(b, selected, cutoff)
  {
    if a == [] {
      assert a + b == b;
    } else {
      assert (a + b)[0] == a[0] && (a + b)[1..] == a[1..] + b;
      SurvivingAppend(a[1..], b, selected, cutoff);
    }
  }

  /** When nothing is expired, nothing is deleted. */
  lemma {:induction false} SurvivingNoneExpired(rows: seq<Hit>, selected: set<nat>, cutoff: int)
    requires forall k :: 0 <= k < |rows| ==> !Expired(rows[k], selected, cutoff)
    ensures Surviving(rows, selected, cutoff) == rows
  {
    if rows != [] {
      assert !Expired(rows[0], selected, cutoff);
      SurvivingNoneExpired(rows[1..], selected, cutoff);
      assert rows == [rows[0]] + rows[1..];
    }
  }

  /** The table of page hits. */
  class HitTable {
    var rows: seq<Hit>

    constructor (rows: seq<Hit>)
      ensures this.rows == rows
    {
      this.rows := rows;
    }

    /** Deletes the selected hits dated before `today` minus 7 days. */
    method Cleanup(selected: set<nat>, today: int)
      modifies this
      ensures rows == Surviving(old(rows), selected, today - RetentionDays)
      ensures forall hit :: hit in rows <==>
        hit in old(rows) && !(hit.id in selected && hit.createdDate < today - RetentionDays)
    {
      rows := Surviving(rows, selected, today - RetentionDays);
    }
  }
}
