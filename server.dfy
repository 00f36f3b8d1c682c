/**
 * The request-level rules of the server: which page a course section request
 * renders (or whether it falls through to the 404 handler), the course's start
 * page, the training login that puts a student's variables in the session, and
 * the sidebar switch. Handlebars template expansion is the `expand` parameter.
 */
module Server {
  import opened Wrappers
  import opened CourseTree
  import opened FetchData
  import opened Menu
  import opened StudentRows
  import opened UrlNames

  /** A course as the course data file describes it; `sections` is `courseData.children`. */
  datatype Course = Course(
    courseTitle: string,
    courseName: string,
    courseSlug: string,
    splashTitle: string,
    splashInstructions: string,
    sections: seq<Node>)

  /** The section parameter that asks for the start of the course. */
  const StartSection := "__start"

  /** A value, or the `TypeError` JavaScript throws on reading a property of `undefined`. */
  datatype Attempt<T> = Done(value: T) | TypeError

  /**
   * The template of the start page: the first section's body, or, when that body
   * is the empty string, the body of the first section's first child. The
   * fallback goes down one level only.
   */
  function StartTemplate(sections: seq<Node>): (r: Attempt<string>)
    ensures r.Done? <==>
      |sections| > 0 &&
      (sections[0].data != "" || (sections[0].children.Present? && sections[0].children.nodes != []))
    ensures r.Done? && sections[0].data != "" ==> r.value == sections[0].data
    ensures r.Done? && sections[0].data == "" ==> r.value == sections[0].children.nodes[0].data
  {
    if sections == [] then TypeError
    else if sections[0].data == "" then
      match sections[0].children
      case Absent => TypeError
      case Present(cs) => if cs == [] then TypeError else Done(cs[0].data)
    else Done(sections[0].data)
  }

  /** A first section with a body shows the same template as a request for that section by its id. */
  lemma StartMatchesSection(sections: seq<Node>)
    requires |sections| > 0 && sections[0].data != ""
    ensures StartTemplate(sections) == Done(Fetch(sections[0].id, sections).value)
    ensures Truthy(Fetch(sections[0].id, sections))
  {
    SiblingMatchWins(sections[0].id, sections, 0);
  }

  /**
   * A first section without a body is found by its id but not truthy, so a request
   * for it by id falls through to the 404 handler; only the start page reaches its
   * first child.
   */
  lemma EmptyFirstSectionOnlyAtStart(sections: seq<Node>)
    requires |sections| > 0 && sections[0].data == ""
    ensures Fetch(sections[0].id, sections) == Some("")
    ensures !Truthy(Fetch(sections[0].id, sections))
  {
    SiblingMatchWins(sections[0].id, sections, 0);
  }

  /** The fallback is one level deep: an empty drawer inside an empty drawer gives an empty start page. */
  lemma StartFallbackOneLevel()
    ensures var inner := Node("b", "B", "", Present([Node("c", "C", "body", Absent)]));
      StartTemplate([Node("a", "A", "", Present([inner]))]) == Done("")
  {
  }

  /** What the `courses` view is given. */
  datatype View = View(
    sidebarData: string,
    content: string,
    userData: Row,
    sidebarShown: bool,
    courseSlug: string,
    courseName: string,
    courseTitle: string,
    rawCourseTitle: string)

  /** How a request ends: a rendered view, `next()` into the 404 handler, or a thrown `TypeError`. */
  datatype Response = Rendered(view: View) | NotFound | Failed

  /** `userData.Student = 'student' + userData.Number`: the record the login stores in the session. */
  const StudentKey := "Student"

  /** JavaScript's `'student' + x` where `x` is the `Number` cell, `undefined` when missing. */
  function StudentName(row: Row): string {
    "student" + (if NumberKey in row then row[NumberKey] else "undefined")
  }

  function LoginRecord(row: Row): (r: Row)
    ensures r.Keys == row.Keys + {StudentKey}
    ensures r[StudentKey] == StudentName(row)
    ensures forall k :: k in row && k != StudentKey ==> r[k] == row[k]
  {
    row[StudentKey := StudentName(row)]
  }

  /**
   * The training-login route looks the student's row up with
   * `getUserVars(title, id)`, but `getUserVars` takes one argument, so the lookup
   * is by the course title and the student id is ignored.
   */
  function LoginLookupAsWritten(rows: seq<Row>, title: string, id: string): (r: Option<Row>)
    ensures r.None? <==> forall j :: 0 <= j < |rows| ==> !Matches(rows[j], title)
    ensures r.Some? ==> r.value in rows && Matches(r.value, title)
  {
    GetUserVars(rows, title)
  }

  /** The lookup as written never depends on the student chosen. */
  lemma LoginLookupIgnoresId(rows: seq<Row>, title: string, id1: string, id2: string)
    ensures LoginLookupAsWritten(rows, title, id1) == LoginLookupAsWritten(rows, title, id2)
  {
  }

  /** In this example a listed student cannot log in: no row's number is the course title, so the lookup comes back empty. */
  lemma LoginAsWrittenMissesStudent()
    ensures var rows := [map[NumberKey := "07"]];
      && GetUserVars(rows, "07").Some?
      && LoginLookupAsWritten(rows, "cogen", "07").None?
  {
    var rows := [map[NumberKey := "07"]];
    assert Matches(rows[0], "07");
    assert !Matches(rows[0], "cogen");
  }

  /** The intended lookup: `getUserVars` called with the student id, its one argument. */
  function LoginLookup(rows: seq<Row>, id: string): (r: Option<Row>)
    ensures r.Some? <==> Some(id) in GetUsers(rows)
    ensures r.Some? ==> r.value in rows && Matches(r.value, id)
  {
    UserVarsAgreeWithUsers(rows, id);
    GetUserVars(rows, id)
  }

  /** After the intended lookup the stored record names the chosen student, and keeps every other cell. */
  lemma LoginRecordNamesStudent(rows: seq<Row>, id: string)
    requires LoginLookup(rows, id).Some?
    ensures var row := LoginLookup(rows, id).value;
      && LoginRecord(row)[StudentKey] == "student" + id
      && LoginRecord(row)[NumberKey] == id
      && forall k :: k in row && k != StudentKey ==> LoginRecord(row)[k] == row[k]
  {
  }

  /** The parts of the session the core reads and writes. */
  class Session {
    var user: Option<Row>
    var showSidebar: bool

    /** A fresh session: nobody logged in, no sidebar setting. */
    constructor ()
      ensures user.None? && !showSidebar
    {
      user := None;
      showSidebar := false;
    }

    /**
     * `/courses/:title/:section`: without a user in the session, or for a section
     * whose lookup is falsy, the request falls through to the 404 handler;
     * otherwise the section's template (or the start template) is expanded with
     * the user's variables and rendered beside the sidebar menu.
     */
    method CourseSection(course: Course, title: string, section: string, expand: (string, Row) -> string)
      returns (response: Response)
      ensures user.None? ==> response == NotFound
      ensures user.Some? && section != StartSection ==>
        (response.Rendered? <==> Truthy(Fetch(section, course.sections))) &&
        (response.Rendered? || response == NotFound) &&
        (response.Rendered? ==> response.view.content == expand(Fetch(section, course.sections).value, user.value))
      ensures user.Some? && section == StartSection ==>
        match StartTemplate(course.sections)
        case TypeError => response == Failed
        case Done(t) => response.Rendered? && response.view.content == expand(t, user.value)
      ensures response.Rendered? ==>
        && user.Some?
        && response.view.sidebarData == MenuMarkup(course.sections, title)
        && response.view.userData == user.value
        && response.view.sidebarShown == showSidebar
        && response.view.courseSlug == course.courseSlug
        && response.view.courseName == course.courseName
        && response.view.courseTitle == Slug(course.courseTitle)
        && response.view.rawCourseTitle == course.courseTitle
    {
      if user.None? {
        return NotFound;
      }
      var userData := user.value;
      var contentString: string;
      if section != StartSection {
        var courseData := FetchDataOf(section, course.sections);
        if Truthy(courseData) {
          contentString := expand(courseData.value, userData);
        } else {
          return NotFound;
        }
      } else {
        if course.sections == [] {
          return Failed;
        }
        var firstSection := course.sections[0];
        var courseTemplate: string;
        if firstSection.data == "" {
          if firstSection.children.Absent? || firstSection.children.nodes == [] {
            return Failed;
          }
          courseTemplate := firstSection.children.nodes[0].data;
        } else {
          courseTemplate := firstSection.data;
        }
        contentString := expand(courseTemplate, userData);
      }
      var sidebarData := GenerateMenuString(course.sections, title);
      response := Rendered(View(
        sidebarData,
        contentString,
        userData,
        showSidebar,
        course.courseSlug,
        course.courseName,
        Slug(course.courseTitle),
        course.courseTitle));
    }

    /**
     * `/training-login/:title/:id`, with the student looked up by id: the stored
     * record gains `Student`, the sidebar is switched on. When no row matches, the
     * fix-up throws and the session is left as it was.
     */
    method TrainingLogin(rows: seq<Row>, title: string, id: string) returns (ok: bool)
      modifies this
      ensures ok <==> LoginLookup(rows, id).Some?
      ensures ok ==> user == Some(LoginRecord(LoginLookup(rows, id).value)) && showSidebar
      ensures !ok ==> user == old(user) && showSidebar == old(showSidebar)
    {
      var userData := GetUserVars(rows, id);
      if userData.None? {
        return false;
      }
      var record := userData.value[StudentKey := StudentName(userData.value)];
      user := Some(record);
      showSidebar := true;
      ok := true;
    }

    /** `/sidebar/:showSidebar`: the flag is on exactly when the parameter is the string `true`. */
    method SetSidebar(param: string)
      modifies this
      ensures showSidebar == (param == "true")
      ensures user == old(user)
    {
      showSidebar := param == "true";
    }
  }
}
