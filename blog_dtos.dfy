/** `CreateBlogDto` and `UpdateBlogDto` as declared, and what each one
    accepts, spelled out field by field. */
module BlogDtos {
  import opened Validators

  const CreateBlogDto: seq<Property> := [
    Property("title", false, [
      Constraint(IsString, "title must be a string"),
      Constraint(IsNotEmpty, "title is required"),
      Constraint(MaxLength(100), "title must be less than 100 characters"),
      Constraint(MinLength(3), "title must be at least 3 characters")]),
    Property("content", false, [
      Constraint(IsString, "content must be a string"),
      Constraint(MaxLength(1200), "content must be less than 1200 characters"),
      Constraint(MinLength(10), "content must be at least 10 characters"),
      Constraint(IsNotEmpty, "content is required")]),
    Property("category", false, [
      Constraint(IsString, "category must be a string"),
      Constraint(IsNotEmpty, "category is required")])
  ]

  const UpdateBlogDto: seq<Property> := [
    Property("title", true, [
      Constraint(IsString, "title must be a string"),
      Constraint(MaxLength(100), "title must be less than 100 characters"),
      Constraint(MinLength(3), "title must be at least 3 characters")]),
    Property("content", true, [
      Constraint(IsString, "content must be a string"),
      Constraint(MaxLength(1200), "content must be less than 1200 characters"),
      Constraint(MinLength(10), "content must be at least 10 characters")]),
    Property("category", true, [
      Constraint(IsString, "category must be a string")])
  ]

  /** A string of length within `min..max`. */
  predicate StrBetween(f: Field, min: nat, max: nat)
  {
    f.Str? && min <= |f.s| <= max
  }

  /** Absent or null (what `@IsOptional()` exempts). */
  predicate Missing(f: Field)
  {
    f.Absent? || f.Null?
  }

  /** A create body passes exactly when the title is a string of 3 to 100
      characters, the content one of 10 to 1200, and the category a
      non-empty string; a missing field fails. */
  lemma CreateBlogDtoAccepts(body: Body, lib: Library)
    ensures Valid(CreateBlogDto, body, lib) <==>
      && StrBetween(FieldOf(body, "title"), 3, 100)
      && StrBetween(FieldOf(body, "content"), 10, 1200)
      && FieldOf(body, "category").Str? && FieldOf(body, "category").s != ""
  {
    var title, content, category := FieldOf(body, "title"), FieldOf(body, "content"), FieldOf(body, "category");
    if Valid(CreateBlogDto, body, lib) {
      assert PropertyValid(CreateBlogDto[0], title, lib);
      assert Holds(IsString, title, lib) && Holds(MaxLength(100), title, lib) && Holds(MinLength(3), title, lib)
        by { assert CreateBlogDto[0].constraints[0].rule == IsString; assert CreateBlogDto[0].constraints[2].rule == MaxLength(100); assert CreateBlogDto[0].constraints[3].rule == MinLength(3); }
      assert PropertyValid(CreateBlogDto[1], content, lib);
      assert Holds(MaxLength(1200), content, lib) && Holds(MinLength(10), content, lib)
        by { assert CreateBlogDto[1].constraints[1].rule == MaxLength(1200); assert CreateBlogDto[1].constraints[2].rule == MinLength(10); }
      assert PropertyValid(CreateBlogDto[2], category, lib);
      assert Holds(IsNotEmpty, category, lib) && Holds(IsString, category, lib)
        by { assert CreateBlogDto[2].constraints[0].rule == IsString; assert CreateBlogDto[2].constraints[1].rule == IsNotEmpty; }
    }
  }

  /** An update body passes exactly when each field is missing or, if given,
      a title of 3 to 100 characters, a content of 10 to 1200, and a
      category that is any string, the empty one included. */
  lemma UpdateBlogDtoAccepts(body: Body, lib: Library)
    ensures Valid(UpdateBlogDto, body, lib) <==>
      && (Missing(FieldOf(body, "title")) || StrBetween(FieldOf(body, "title"), 3, 100))
      && (Missing(FieldOf(body, "content")) || StrBetween(FieldOf(body, "content"), 10, 1200))
      && (Missing(FieldOf(body, "category")) || FieldOf(body, "category").Str?)
  {
    var title, content, category := FieldOf(body, "title"), FieldOf(body, "content"), FieldOf(body, "category");
    if Valid(UpdateBlogDto, body, lib) {
      assert PropertyValid(UpdateBlogDto[0], title, lib);
      if !Missing(title) {
        assert Holds(MaxLength(100), title, lib) && Holds(MinLength(3), title, lib)
          by { assert UpdateBlogDto[0].constraints[1].rule == MaxLength(100); assert UpdateBlogDto[0].constraints[2].rule == MinLength(3); }
      }
      assert PropertyValid(UpdateBlogDto[1], content, lib);
      if !Missing(content) {
        assert Holds(MaxLength(1200), content, lib) && Holds(MinLength(10), content, lib)
          by { assert UpdateBlogDto[1].constraints[1].rule == MaxLength(1200); assert UpdateBlogDto[1].constraints[2].rule == MinLength(10); }
      }
      assert PropertyValid(UpdateBlogDto[2], category, lib);
      if !Missing(category) {
        assert Holds(IsString, category, lib) by { assert UpdateBlogDto[2].constraints[0].rule == IsString; }
      }
    }
  }

  /** Every field of an update is optional: the empty body passes. */
  lemma EmptyUpdatePasses(lib: Library)
    ensures Valid(UpdateBlogDto, map[], lib)
  {
    UpdateBlogDtoAccepts(map[], lib);
  }

  /** A body that creates a blog would also pass as an update. */
  lemma CreateBodyIsUpdateBody(body: Body, lib: Library)
    requires Valid(CreateBlogDto, body, lib)
    ensures Valid(UpdateBlogDto, body, lib)
  {
    CreateBlogDtoAccepts(body, lib);
    UpdateBlogDtoAccepts(body, lib);
  }

  /** An empty category passes an update but not a create. */
  lemma EmptyCategoryOnlyOnUpdate(title: string, content: string, lib: Library)
    requires 3 <= |title| <= 100 && 10 <= |content| <= 1200
    ensures var body := map["title" := Str(title), "content" := Str(content), "category" := Str("")];
      Valid(UpdateBlogDto, body, lib) && !Valid(CreateBlogDto, body, lib)
  {
    var body := map["title" := Str(title), "content" := Str(content), "category" := Str("")];
    CreateBlogDtoAccepts(body, lib);
    UpdateBlogDtoAccepts(body, lib);
  }

  /** A create body without a category fails, whatever else it holds. */
  lemma CreateNeedsCategory(body: Body, lib: Library)
    requires "category" !in body
    ensures !Valid(CreateBlogDto, body, lib)
    ensures "category is required" in Errors(CreateBlogDto, body, lib)
  {
    CreateBlogDtoAccepts(body, lib);
    var c := CreateBlogDto[2].constraints[1];
    assert c in CreateBlogDto[2].constraints && !Holds(c.rule, Absent, lib);
    assert "category is required" in PropertyErrors(CreateBlogDto[2], FieldOf(body, "category"), lib);
    assert CreateBlogDto[2..] == [CreateBlogDto[2]];
    assert Errors(CreateBlogDto, body, lib) >= Errors(CreateBlogDto[1..], body, lib) >= Errors(CreateBlogDto[2..], body, lib);
  }
}
