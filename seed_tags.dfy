/** The tag seeder: one tag row per entry of a fixed list of names, each with its slug. */
module SeedTags {
  import opened Schema
  import opened Slug

  /** The fixed list of human-readable tag names, in seeding order. */
  const TagNames: seq<string> := [
    "React", "Vue.js", "Angular", "JavaScript", "TypeScript", "Python", "Java", "C#", "Go", "Rust",
    "Node.js", "Express", "Next.js", "Nuxt.js", "Svelte", "Tailwind CSS", "Bootstrap", "Sass",
    "CSS", "HTML5", "Webpack", "Vite", "Docker", "Kubernetes", "AWS", "Azure", "Google Cloud",
    "Firebase", "MongoDB", "PostgreSQL", "MySQL", "Redis", "GraphQL", "REST API", "Microservices",
    "Serverless", "Machine Learning", "Artificial Intelligence", "Deep Learning", "TensorFlow",
    "PyTorch", "Pandas", "Data Visualization", "Tableau", "Power BI", "Git", "GitHub", "GitLab",
    "CI/CD", "Agile", "Scrum", "Testing", "Jest", "Cypress", "Selenium", "Unit Testing",
    "Integration Testing", "E2E Testing", "Security", "Authentication", "Authorization", "JWT",
    "OAuth", "SSL", "HTTPS", "Encryption", "Performance", "Optimization", "SEO", "Accessibility",
    "Responsive Design", "Mobile First", "Progressive Web App", "PWA", "Web Components",
    "API Design", "Database Design", "System Design"
  ]

  /** The row the seeder writes for the `i`-th name. */
  function TagRow(i: nat, id: Id): (t: Tag)
    requires i < |TagNames|
    ensures t.name == TagNames[i] && t.id == id
    ensures IsSlug(t.slug)
    ensures t.slug == Slugify(t.name)
  {
    SlugifyShape(TagNames[i]);
    Tag(id, TagNames[i], Slugify(TagNames[i]))
  }

  /**
   * `seedTags()`: creates the tag rows in list order and returns them; `tagIds(i)` is the
   * fresh id drawn for the `i`-th row.
   */
  method SeedTags(db: Database, tagIds: nat -> Id) returns (created: seq<Tag>)
    modifies db`tags
    ensures |created| == |TagNames| == 78
    ensures forall i :: 0 <= i < |created| ==> created[i] == TagRow(i, tagIds(i))
    ensures db.tags == old(db.tags) + created
  {
    created := [];
    for i := 0 to |TagNames|
      invariant |created| == i
      invariant forall k :: 0 <= k < i ==> created[k] == TagRow(k, tagIds(k))
      invariant db.tags == old(db.tags) + created
    {
      var t := TagRow(i, tagIds(i));
      db.CreateTag(t);
      created := created + [t];
    }
  }

  /** Every seeded tag carries its list name verbatim and a slug of the required shape. */
  lemma SeededTagsAreSlugged(created: seq<Tag>, tagIds: nat -> Id)
    requires |created| == |TagNames|
    requires forall i :: 0 <= i < |created| ==> created[i] == TagRow(i, tagIds(i))
    ensures forall i :: 0 <= i < |created| ==> created[i].name == TagNames[i] && IsSlug(created[i].slug)
    ensures forall i :: 0 <= i < |created| ==> Slugify(created[i].slug) == created[i].slug
  {
    forall i | 0 <= i < |created|
      ensures Slugify(created[i].slug) == created[i].slug
    {
      SlugifyIdempotent(TagNames[i]);
    }
  }
}
