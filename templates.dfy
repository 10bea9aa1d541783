/** load_template (meme.py:97-104): the template picked in the dropdown,
    as a path under templates/, or None. */
module Templates {
  import opened Wrappers
  import opened Strings

  /** The dropdown entry that means "upload your own image". */
  const SENTINEL := "Upload Sendiri"

  const TEMPLATE_DIR := "templates"

  /** name.lower().replace(" ", "_") */
  function Slug(name: string): string
  {
    Replace(Lower(name), " ", "_")
  }

  /** The slug keeps the name's length, maps every space to '_' and every
      other character to its lower-case form, so it holds no space and no
      upper-case letter. */
  lemma SlugShape(name: string)
    ensures |Slug(name)| == |name|
    ensures forall i :: 0 <= i < |name| ==>
      Slug(name)[i] == if name[i] == ' ' then '_' else LowerChar(name[i])
    ensures ' ' !in Slug(name)
    ensures forall i :: 0 <= i < |name| ==> !IsUpperAscii(Slug(name)[i])
  {
    ReplaceCharwise(Lower(name), ' ', '_');
    assert forall i :: 0 <= i < |name| ==> (LowerChar(name[i]) == ' ' <==> name[i] == ' ');
  }

  /** A name without spaces or upper-case letters is its own slug. */
  lemma SlugOfPlain(name: string)
    requires forall i :: 0 <= i < |name| ==> name[i] != ' ' && !IsUpperAscii(name[i])
    ensures Slug(name) == name
  {
    SlugShape(name);
  }

  /** Slugging a slug changes nothing. */
  lemma SlugIdempotent(name: string)
    ensures Slug(Slug(name)) == Slug(name)
  {
    SlugShape(name);
    SlugOfPlain(Slug(name));
  }

  /** os.path.join(dir, file) on POSIX: an absolute second part replaces the first. */
  function PathJoin(dir: string, file: string): string
  {
    if StartsWith(file, "/") then file
    else if dir == [] || dir[|dir| - 1] == '/' then dir + file
    else dir + "/" + file
  }

  function TemplatePath(name: string): string
  {
    PathJoin(TEMPLATE_DIR, Slug(name) + ".jpg")
  }

  /** The resolved path is templates/<slug>.jpg, unless the name starts
      with '/', in which case os.path.join drops the directory. */
  lemma TemplatePathShape(name: string)
    ensures name == [] || name[0] != '/' ==> TemplatePath(name) == "templates/" + Slug(name) + ".jpg"
    ensures name != [] && name[0] == '/' ==> TemplatePath(name) == Slug(name) + ".jpg"
  {
    SlugShape(name);
    var file := Slug(name) + ".jpg";
    if name != [] {
      assert file[0] == Slug(name)[0];
      assert name[0] == '/' <==> Slug(name)[0] == '/';
    } else {
      assert Slug(name) == [];
      assert file == ".jpg";
      assert file[0] == '.';
    }
  }

  /** A falsy name (None or "") or the sentinel. */
  predicate IsNoTemplate(name: Option<string>)
  {
    name == None || name == Some("") || name == Some(SENTINEL)
  }

  /** load_template: None for the sentinel or a falsy name, without looking
      at the filesystem; otherwise the resolved path exactly when it exists. */
  function LoadTemplate(name: Option<string>, existing: set<string>): (r: Option<string>)
    ensures IsNoTemplate(name) ==> r == None
    ensures !IsNoTemplate(name) ==>
      (r == Some(TemplatePath(name.value)) <==> TemplatePath(name.value) in existing)
    ensures !IsNoTemplate(name) ==>
      (r == None <==> TemplatePath(name.value) !in existing)
    ensures r.Some? ==> r.value in existing
  {
    if name == None || name.value == "" || name.value == SENTINEL then None
    else
      var path := TemplatePath(name.value);
      if path in existing then Some(path) else None
  }

  /** The sentinel test comes before lower-casing and is case-sensitive:
      "upload sendiri" is looked up like any other template name. */
  lemma SentinelIsCaseSensitive(existing: set<string>)
    ensures LoadTemplate(Some("upload sendiri"), existing) ==
      if TemplatePath("upload sendiri") in existing then Some(TemplatePath("upload sendiri")) else None
  {
    var name := "upload sendiri";
    assert name != SENTINEL by { assert name[0] != SENTINEL[0]; }
    assert name != "";
  }

  /** A dropdown template name such as "jaemin" (no spaces, no upper-case
      letters, not starting with '/') resolves to templates/<name>.jpg when
      that file exists. */
  lemma PlainNameResolves(name: string, existing: set<string>)
    requires name != [] && name[0] != '/'
    requires forall i :: 0 <= i < |name| ==> name[i] != ' ' && !IsUpperAscii(name[i])
    ensures LoadTemplate(Some(name), existing) ==
      if "templates/" + name + ".jpg" in existing then Some("templates/" + name + ".jpg") else None
  {
    assert name != SENTINEL by { assert IsUpperAscii(SENTINEL[0]); }
    SlugOfPlain(name);
    TemplatePathShape(name);
  }
}
