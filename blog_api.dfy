/** The shape of a blog post as the frontend receives it; `createdAt` is an abstract timestamp. */
module BlogApi {
  import opened Wrappers
  import opened RecipeApi

  datatype BlogDto = BlogDto(
    id: int, title: string, description: string, text: string,
    photoUrl: Option<string>, cookingTime: Option<int>, status: Option<string>,
    createdAt: int, userDto: Option<UserRef>)
}
