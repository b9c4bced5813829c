/** The forge-agnostic view of a pull request that the pipeline passes around. */
module Api {

  /** `meta` stands for the descriptive fields (title, author, labels, links)
      that no decision in this model reads except through the PR filter. */
  datatype PR = PR(
    number: int,
    state: string,
    open: bool,
    merged: bool,
    fork: bool,
    headSHA: string,
    baseRef: string,
    meta: string)
}
