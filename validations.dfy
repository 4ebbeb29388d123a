/** The form schemas: each schema is a list of per-field rules, checked all
    together; a form is accepted exactly when no rule fails, and the result
    then carries the parsed data (with `isFeatured` defaulted). Zod's `email()`
    and `url()` checks are the predicate parameters `isEmail` and `isUrl`. */
module Validations {
  import opened Wrappers

  /** The ways a field can fail; `Message` gives the text shown for each. */
  datatype Issue =
    | NameTooShort | InvalidEmail | MessageTooShort | PasswordTooShort
    | TitleTooShort | ContentTooShort | SummaryTooShort | NoCategory | NoTags
    | InvalidUrl | InvalidStatus(received: string)

  function Message(i: Issue): string
  {
    match i
    case NameTooShort => "Name must be at least 2 characters"
    case InvalidEmail => "Please enter a valid email address"
    case MessageTooShort => "Message must be at least 10 characters"
    case PasswordTooShort => "Password must be at least 6 characters"
    case TitleTooShort => "Title must be at least 5 characters"
    case ContentTooShort => "Content must be at least 50 characters"
    case SummaryTooShort => "Summary must be at least 20 characters"
    case NoCategory => "Please select a category"
    case NoTags => "Please add at least one tag"
    case InvalidUrl => "Invalid url"
    case InvalidStatus(received) => "Invalid enum value. Expected 'draft' | 'published', received '" + received + "'"
  }

  /** One field check and the issue it reports when it fails. */
  datatype Rule = Rule(ok: bool, issue: Issue)

  /** A parse outcome: the data, or the issue of every failing rule, in
      field order. */
  datatype Parsed<T> = Valid(data: T) | Invalid(issues: seq<Issue>)

  /** The issues of the failing rules, in order. */
  function Issues(rules: seq<Rule>): (r: seq<Issue>)
    ensures r == [] <==> forall i :: 0 <= i < |rules| ==> rules[i].ok
    ensures forall m :: m in r <==> exists i :: 0 <= i < |rules| && !rules[i].ok && rules[i].issue == m
  {
    if rules == [] then []
    else
      var rest := Issues(rules[1..]);
      assert forall i :: 1 <= i < |rules| ==> rules[i] == rules[1..][i - 1];
      assert forall m :: m in rest <==> exists i :: 1 <= i < |rules| && !rules[i].ok && rules[i].issue == m by {
        forall m | m in rest ensures exists i :: 1 <= i < |rules| && !rules[i].ok && rules[i].issue == m {
          var j :| 0 <= j < |rules[1..]| && !rules[1..][j].ok && rules[1..][j].issue == m;
          assert rules[j + 1] == rules[1..][j];
        }
      }
      (if rules[0].ok then [] else [rules[0].issue]) + rest
  }

  /** `r` is a failed parse that lists `issue`. */
  predicate Reports<T>(r: Parsed<T>, issue: Issue)
  {
    r.Invalid? && issue in r.issues
  }

  /** With no other rule sharing its issue, a rule's issue is reported exactly
      when the rule fails. */
  lemma Reported<T>(rules: seq<Rule>, data: T, k: int)
    requires 0 <= k < |rules|
    requires forall j :: 0 <= j < |rules| && j != k ==> rules[j].issue != rules[k].issue
    ensures Reports(Check(rules, data), rules[k].issue) <==> !rules[k].ok
  {
  }

  function Check<T>(rules: seq<Rule>, data: T): (r: Parsed<T>)
    ensures r.Valid? <==> forall i :: 0 <= i < |rules| ==> rules[i].ok
    ensures r.Valid? ==> r.data == data
    ensures r.Invalid? ==> r.issues == Issues(rules)
  {
    var issues := Issues(rules);
    if issues == [] then Valid(data) else Invalid(issues)
  }

  // ---------------------------------------------------------------------------
  // Contact form

  datatype ContactForm = ContactForm(name: string, email: string, phone: Option<string>, message: string)

  function ContactRules(f: ContactForm, isEmail: string -> bool): seq<Rule>
  {
    [Rule(|f.name| >= 2, NameTooShort),
     Rule(isEmail(f.email), InvalidEmail),
     Rule(|f.message| >= 10, MessageTooShort)]
  }

  function ParseContact(f: ContactForm, isEmail: string -> bool): (r: Parsed<ContactForm>)
    ensures r.Valid? <==> |f.name| >= 2 && isEmail(f.email) && |f.message| >= 10
    ensures r.Valid? ==> r.data == f
    ensures Reports(r, NameTooShort) <==> |f.name| < 2
    ensures Reports(r, InvalidEmail) <==> !isEmail(f.email)
    ensures Reports(r, MessageTooShort) <==> |f.message| < 10
  {
    var rules := ContactRules(f, isEmail);
    assert rules[0].issue == NameTooShort && rules[1].issue == InvalidEmail && rules[2].issue == MessageTooShort;
    Check(rules, f)
  }

  /** The phone number plays no part in the decision. */
  lemma PhoneOptional(f: ContactForm, phone: Option<string>, isEmail: string -> bool)
    ensures ParseContact(f, isEmail).Valid? <==> ParseContact(f.(phone := phone), isEmail).Valid?
  {
  }

  // ---------------------------------------------------------------------------
  // Newsletter and login forms

  function ParseNewsletter(email: string, isEmail: string -> bool): (r: Parsed<string>)
    ensures r.Valid? <==> isEmail(email)
    ensures r.Valid? ==> r.data == email
    ensures r.Invalid? ==> r.issues == [InvalidEmail]
  {
    Check([Rule(isEmail(email), InvalidEmail)], email)
  }

  datatype LoginForm = LoginForm(email: string, password: string)

  function ParseLogin(f: LoginForm, isEmail: string -> bool): (r: Parsed<LoginForm>)
    ensures r.Valid? <==> isEmail(f.email) && |f.password| >= 6
    ensures r.Valid? ==> r.data == f
    ensures Reports(r, PasswordTooShort) <==> |f.password| < 6
    ensures Reports(r, InvalidEmail) <==> !isEmail(f.email)
  {
    var rules := [Rule(isEmail(f.email), InvalidEmail), Rule(|f.password| >= 6, PasswordTooShort)];
    assert rules[0].issue == InvalidEmail && rules[1].issue == PasswordTooShort;
    Check(rules, f)
  }

  /** An address the email check rejects fails the contact, newsletter and
      login forms alike, each reporting the email message. */
  lemma EmailRequired(email: string, isEmail: string -> bool, name: string, message: string,
                      phone: Option<string>, password: string)
    requires !isEmail(email)
    ensures Reports(ParseNewsletter(email, isEmail), InvalidEmail)
    ensures Reports(ParseLogin(LoginForm(email, password), isEmail), InvalidEmail)
    ensures Reports(ParseContact(ContactForm(name, email, phone, message), isEmail), InvalidEmail)
  {
  }

  // ---------------------------------------------------------------------------
  // Blog post form

  /** The form as submitted; `isFeatured` may be absent. */
  datatype BlogPostForm = BlogPostForm(
    title: string,
    content: string,
    summary: string,
    category: string,
    tags: seq<string>,
    thumbnail: Option<string>,
    status: string,
    isFeatured: Option<bool>)

  /** The parsed form: `isFeatured` is always present. */
  datatype BlogPostData = BlogPostData(
    title: string,
    content: string,
    summary: string,
    category: string,
    tags: seq<string>,
    thumbnail: Option<string>,
    status: string,
    isFeatured: bool)

  predicate IsStatus(s: string) { s == "draft" || s == "published" }

  function BlogPostRules(f: BlogPostForm, isUrl: string -> bool): seq<Rule>
  {
    [Rule(|f.title| >= 5, TitleTooShort),
     Rule(|f.content| >= 50, ContentTooShort),
     Rule(|f.summary| >= 20, SummaryTooShort),
     Rule(|f.category| >= 1, NoCategory),
     Rule(|f.tags| >= 1, NoTags),
     Rule(f.thumbnail.None? || isUrl(f.thumbnail.value), InvalidUrl),
     Rule(IsStatus(f.status), InvalidStatus(f.status))]
  }

  /** The form's values with `isFeatured` defaulted to false. */
  function ParsedData(f: BlogPostForm): BlogPostData
  {
    BlogPostData(f.title, f.content, f.summary, f.category, f.tags, f.thumbnail, f.status,
                 if f.isFeatured.Some? then f.isFeatured.value else false)
  }

  function ParseBlogPost(f: BlogPostForm, isUrl: string -> bool): (r: Parsed<BlogPostData>)
    ensures r.Valid? ==> r.data.isFeatured == (f.isFeatured == Some(true))
    ensures r.Valid? ==> r.data.title == f.title && r.data.tags == f.tags && r.data.status == f.status
    ensures r.Valid? ==> r.data.content == f.content && r.data.summary == f.summary
    ensures r.Valid? ==> r.data.category == f.category && r.data.thumbnail == f.thumbnail
  {
    Check(BlogPostRules(f, isUrl), ParsedData(f))
  }

  /** A blog post form is accepted exactly when every field rule holds. */
  lemma BlogPostAccepted(f: BlogPostForm, isUrl: string -> bool)
    ensures ParseBlogPost(f, isUrl).Valid? <==>
      && |f.title| >= 5
      && |f.content| >= 50
      && |f.summary| >= 20
      && f.category != ""
      && f.tags != []
      && (f.thumbnail.None? || isUrl(f.thumbnail.value))
      && (f.status == "draft" || f.status == "published")
  {
    var rules := BlogPostRules(f, isUrl);
    assert rules[0].ok && rules[1].ok && rules[2].ok && rules[3].ok && rules[4].ok && rules[5].ok && rules[6].ok
           <==> forall i :: 0 <= i < |rules| ==> rules[i].ok;
  }

  /** The blog post form reports each length issue exactly when its rule
      fails. */
  lemma BlogPostLengthMessages(f: BlogPostForm, isUrl: string -> bool)
    ensures var r := ParseBlogPost(f, isUrl);
      && (Reports(r, TitleTooShort) <==> |f.title| < 5)
      && (Reports(r, ContentTooShort) <==> |f.content| < 50)
      && (Reports(r, SummaryTooShort) <==> |f.summary| < 20)
      && (Reports(r, NoCategory) <==> f.category == "")
  {
    var rules := BlogPostRules(f, isUrl);
    var data := ParsedData(f);
    Reported(rules, data, 0);
    Reported(rules, data, 1);
    Reported(rules, data, 2);
    Reported(rules, data, 3);
  }

  /** The blog post form reports the tags, thumbnail and status issues
      exactly when their rules fail. */
  lemma BlogPostChoiceMessages(f: BlogPostForm, isUrl: string -> bool)
    ensures var r := ParseBlogPost(f, isUrl);
      && (Reports(r, NoTags) <==> f.tags == [])
      && (Reports(r, InvalidUrl) <==> f.thumbnail.Some? && !isUrl(f.thumbnail.value))
      && (Reports(r, InvalidStatus(f.status)) <==> !IsStatus(f.status))
  {
    var rules := BlogPostRules(f, isUrl);
    var data := ParsedData(f);
    Reported(rules, data, 4);
    Reported(rules, data, 5);
    Reported(rules, data, 6);
  }

  /** The title rule alone decides acceptance among forms that differ only in
      their title: a title is accepted exactly when it has at least 5
      characters. */
  lemma TitleRule(f: BlogPostForm, title: string, isUrl: string -> bool)
    requires ParseBlogPost(f, isUrl).Valid?
    ensures ParseBlogPost(f.(title := title), isUrl).Valid? <==> |title| >= 5
  {
    BlogPostAccepted(f, isUrl);
    BlogPostAccepted(f.(title := title), isUrl);
  }
}
