/**
 * The feature hooks of environment.py: before each feature, the feature's directory is recorded, and the
 * functions file and the composition file are derived from it by the project's layout conventions.
 */
module Environment {
  import opened Wrappers
  import opened Strings
  import opened Paths
  import opened Context

  const FunctionsFileName: string := "functions.yaml"
  const CompositionsRoot: string := "pkg"
  const CompositionFileName: string := "composition.yaml"

  /** The directory of the feature file. */
  function BasePath(filename: string): Path
  {
    Parent(Parse(filename))
  }

  /** The functions file sits beside the feature directories. */
  function FunctionsFilepath(base: Path): Path
  {
    Child(Parent(base), FunctionsFileName)
  }

  /** The compositions of a feature live under `pkg`, in a directory named after the feature's directory, at the
      level of the directory that holds all feature directories. */
  function CompositionsDirectory(base: Path): Path
  {
    Child(Child(Parent(Parent(base)), CompositionsRoot), Name(base))
  }

  function CompositionFilepath(base: Path): Path
  {
    Child(CompositionsDirectory(base), CompositionFileName)
  }

  /** The functions file is a sibling of the feature's directory. */
  lemma FunctionsFileIsSibling(base: Path)
    requires Valid(base)
    ensures Parent(FunctionsFilepath(base)) == Parent(base)
    ensures Name(FunctionsFilepath(base)) == FunctionsFileName
    ensures Valid(FunctionsFilepath(base))
  {
    assert IsComponent(FunctionsFileName);
    ChildThenParent(Parent(base), FunctionsFileName);
  }

  /** The composition file mirrors the feature: two levels above it is the directory two levels above the
      feature's directory; between them are `pkg` and the feature directory's name. */
  lemma CompositionMirrorsFeature(base: Path)
    requires Valid(base) && |base.parts| >= 1
    ensures var file := CompositionFilepath(base);
      && Name(file) == CompositionFileName
      && Name(Parent(file)) == Name(base)
      && Name(Parent(Parent(file))) == CompositionsRoot
      && Parent(Parent(Parent(file))) == Parent(Parent(base))
  {
    var root := Parent(Parent(base));
    assert IsComponent(CompositionsRoot);
    ChildThenParent(root, CompositionsRoot);
    var pkg := Child(root, CompositionsRoot);
    assert IsComponent(Name(base));
    ChildThenParent(pkg, Name(base));
    assert IsComponent(CompositionFileName);
    ChildThenParent(CompositionsDirectory(base), CompositionFileName);
  }

  /** The functions file, component by component. */
  lemma FunctionsFilepathParts(base: Path)
    ensures FunctionsFilepath(base) == Path(base.absolute, Parent(base).parts + [FunctionsFileName])
  {
    assert IsComponent(FunctionsFileName);
    ChildComponent(Parent(base), FunctionsFileName);
  }

  /** Two components appended below the grandparent of a named directory, then a file below them, component by
      component; stated for any components, so that it holds for the layout's names in particular. */
  lemma MirrorParts(base: Path, root: string, file: string)
    requires Valid(base) && |base.parts| >= 1 && IsComponent(root) && IsComponent(file)
    ensures var top := Parent(Parent(base));
      var dir := Child(Child(top, root), Name(base));
      && dir == Path(base.absolute, top.parts + [root, Name(base)])
      && Child(dir, file) == Path(base.absolute, top.parts + [root, Name(base), file])
  {
    var top := Parent(Parent(base));
    ChildComponent(top, root);
    var pkg := Child(top, root);
    assert IsComponent(Name(base));
    ChildComponent(pkg, Name(base));
    assert top.parts + [root] + [Name(base)] == top.parts + [root, Name(base)];
    var dir := Child(pkg, Name(base));
    ChildComponent(dir, file);
    assert top.parts + [root, Name(base)] + [file] == top.parts + [root, Name(base), file];
  }

  /** The compositions directory of a feature directory with a name, component by component. */
  lemma CompositionsDirectoryParts(base: Path)
    requires Valid(base) && |base.parts| >= 1
    ensures CompositionsDirectory(base) ==
      Path(base.absolute, Parent(Parent(base)).parts + [CompositionsRoot, Name(base)])
  {
    assert IsComponent(CompositionsRoot) && IsComponent(CompositionFileName);
    MirrorParts(base, CompositionsRoot, CompositionFileName);
  }

  /** The composition file of a feature directory with a name, component by component. */
  lemma CompositionFilepathParts(base: Path)
    requires Valid(base) && |base.parts| >= 1
    ensures CompositionFilepath(base) ==
      Path(base.absolute, Parent(Parent(base)).parts + [CompositionsRoot, Name(base), CompositionFileName])
  {
    assert IsComponent(CompositionsRoot) && IsComponent(CompositionFileName);
    MirrorParts(base, CompositionsRoot, CompositionFileName);
  }

  /** The layout below a path without components, for any names. */
  lemma TopParts(base: Path, root: string, file: string)
    requires |base.parts| == 0 && IsComponent(root) && IsComponent(file)
    ensures Child(Child(base, root), Name(base)) == Path(base.absolute, [root])
    ensures Child(Child(Child(base, root), Name(base)), file) == Path(base.absolute, [root, file])
  {
    ChildComponent(base, root);
    var pkg := Child(base, root);
    assert Name(base) == "";
    ChildComponent(pkg, "");
    ChildComponent(pkg, file);
  }

  /** For the root or the working directory, whose name is empty, the compositions directory is `pkg` itself. */
  lemma CompositionsDirectoryAtTop(base: Path)
    requires |base.parts| == 0
    ensures CompositionsDirectory(base) == Path(base.absolute, [CompositionsRoot])
    ensures CompositionFilepath(base) == Path(base.absolute, [CompositionsRoot, CompositionFileName])
  {
    assert IsComponent(CompositionsRoot) && IsComponent(CompositionFileName);
    TopParts(base, CompositionsRoot, CompositionFileName);
  }

  /** A feature file in the working directory has "." as its directory: its functions file is `functions.yaml`
      and its composition is `pkg/composition.yaml`, with no feature directory in between. */
  lemma FeatureInWorkingDirectory(filename: string)
    requires '/' !in filename && filename != "" && filename != "."
    ensures BasePath(filename) == Path(false, [])
    ensures FunctionsFilepath(BasePath(filename)) == Path(false, [FunctionsFileName])
    ensures CompositionFilepath(BasePath(filename)) == Path(false, [CompositionsRoot, CompositionFileName])
  {
    SplitWithoutSeparator(filename, '/');
    FunctionsFilepathParts(BasePath(filename));
    CompositionsDirectoryAtTop(BasePath(filename));
  }

  /** The conventional layout: the feature directory `dir/feature` takes its functions from `dir/functions.yaml`
      and its composition from `pkg/feature/composition.yaml`. */
  lemma LayoutExample(dir: string, feature: string)
    requires IsComponent(dir) && IsComponent(feature)
    ensures var base := Path(false, [dir, feature]);
      && FunctionsFilepath(base) == Path(false, [dir, FunctionsFileName])
      && CompositionFilepath(base) == Path(false, [CompositionsRoot, feature, CompositionFileName])
  {
    var base := Path(false, [dir, feature]);
    assert Valid(base) && Name(base) == feature;
    var parent := Path(false, [dir]);
    assert Parent(base) == parent;
    assert Parent(parent) == Path(false, []);
    FunctionsFilepathParts(base);
    assert parent.parts + [FunctionsFileName] == [dir, FunctionsFileName];
    CompositionFilepathParts(base);
    assert [] + [CompositionsRoot, feature, CompositionFileName] == [CompositionsRoot, feature, CompositionFileName];
  }

  /** `setup_base_path`: a feature without a file name stops the run. */
  method SetupBasePath(ctx: ScenarioContext, filename: Option<string>) returns (o: Outcome)
    modifies ctx`basePath
    ensures filename.None? ==> o == Fail(NoFilename) && ctx.basePath == old(ctx.basePath)
    ensures filename.Some? ==> o == Pass && ctx.basePath == Some(BasePath(filename.value))
  {
    if filename.None? {
      return Fail(NoFilename);
    }
    ctx.basePath := Some(BasePath(filename.value));
    o := Pass;
  }

  /** `setup_functions_filepath`: reads the base path, which must be set. */
  method SetupFunctionsFilepath(ctx: ScenarioContext) returns (o: Outcome)
    modifies ctx`functionsFilepath
    ensures ctx.basePath.None? ==> o == Fail(MissingAttribute("base_path")) && unchanged(ctx)
    ensures ctx.basePath.Some? ==> o == Pass && ctx.functionsFilepath == Some(FunctionsFilepath(ctx.basePath.value))
  {
    if ctx.basePath.None? {
      return Fail(MissingAttribute("base_path"));
    }
    ctx.functionsFilepath := Some(FunctionsFilepath(ctx.basePath.value));
    o := Pass;
  }

  /** `setup_composition_filepath`: reads the base path, which must be set, and records both the compositions
      directory and the composition file. */
  method SetupCompositionFilepath(ctx: ScenarioContext) returns (o: Outcome)
    modifies ctx`compositionsDirectory, ctx`compositionFilepath
    ensures ctx.basePath.None? ==> o == Fail(MissingAttribute("base_path")) && unchanged(ctx)
    ensures ctx.basePath.Some? ==>
      && o == Pass
      && ctx.compositionsDirectory == Some(CompositionsDirectory(ctx.basePath.value))
      && ctx.compositionFilepath == Some(CompositionFilepath(ctx.basePath.value))
  {
    if ctx.basePath.None? {
      return Fail(MissingAttribute("base_path"));
    }
    var base := ctx.basePath.value;
    var directory := Child(Child(Parent(Parent(base)), CompositionsRoot), Name(base));
    ctx.compositionsDirectory := Some(directory);
    ctx.compositionFilepath := Some(Child(directory, CompositionFileName));
    o := Pass;
  }

  /** `before_feature`: the base path is set first, so both derived paths come from this feature's file. */
  method BeforeFeature(ctx: ScenarioContext, filename: Option<string>) returns (o: Outcome)
    modifies ctx`basePath, ctx`functionsFilepath, ctx`compositionsDirectory, ctx`compositionFilepath
    ensures filename.None? ==> o == Fail(NoFilename) && unchanged(ctx)
    ensures filename.Some? ==>
      var base := BasePath(filename.value);
      && o == Pass
      && ctx.basePath == Some(base)
      && ctx.functionsFilepath == Some(FunctionsFilepath(base))
      && ctx.compositionsDirectory == Some(CompositionsDirectory(base))
      && ctx.compositionFilepath == Some(CompositionFilepath(base))
  {
    o := SetupBasePath(ctx, filename);
    if o.Fail? {
      return;
    }
    o := SetupFunctionsFilepath(ctx);
    o := SetupCompositionFilepath(ctx);
  }
}
