/** The rows of the three tables. Column constraints the database enforces (NOT NULL,
    unique e-mail, foreign keys, cascading deletes) are not part of the rows. */
module Models {
  import opened Wrappers
  import opened Uuids

  /** A row of "post". `title`, `content` and `published` are optional because updating
      a post writes None into the fields the request leaves out. */
  datatype Post = Post(id: int, title: Option<string>, content: Option<string>, published: Option<bool>,
                       rating: Option<int>, createdAt: int, ownerId: Uuid)

  /** A row of "users"; `password` holds the bcrypt hash. */
  datatype User = User(id: Uuid, email: string, password: string, createdAt: int)

  /** A row of "votes", identified by its composite key: `userId` upvoted `postId`. */
  datatype Vote = Vote(userId: Uuid, postId: int)
}
