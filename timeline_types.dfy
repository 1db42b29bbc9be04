/**
 * One entry of the career timeline. Optional fields the data may leave
 * out are `None`; the category is kept as text, since the colour lookup
 * has a fallback for any other value.
 */
module TimelineTypes {
  import opened Optional

  datatype Links = Links(github: Option<string>, live: Option<string>)

  datatype TimelineEvent = TimelineEvent(
    id: string,
    year: int,
    month: int,
    title: string,
    category: string,
    description: string,
    techStack: Option<seq<string>>,
    links: Option<Links>,
    position: Option<string>,
    highlight: Option<bool>)

  /** JavaScript truthiness of an optional string: present and not empty. */
  predicate Truthy(s: Option<string>) {
    s.Some? && s.value != ""
  }
}
