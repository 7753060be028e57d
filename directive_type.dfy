/** The directive category. Only the members that the repository's tests name are known. */
module DirectiveType {

  datatype ADType = GENERAL | ENGINE | GLIDER
}
