/**
  Laravel's `Str` helpers and `class_basename`, which the generator and the
  base controllers call but do not define. They are not reimplemented: a
  `Str` value carries one total function per helper, and every lemma that
  needs a fact about them says so in its `requires`.
 */
module Laravel {

  datatype Str = Str(
    plural: string -> string,        // Str::plural (English pluralizer)
    snake: string -> string,         // Str::snake
    studly: string -> string,        // Str::studly
    camel: string -> string,         // Str::camel
    title: string -> string,         // Str::title
    classBasename: string -> string  // class_basename
  )
}
