/** Converting blog posts to their transfer form and applying a transfer object to a post. */
module BlogMapper {
  import opened Wrappers
  import opened JavaLang
  import opened Entities
  import opened Dto
  import UserMapper
  import RecipeMapper
  import ContentStatus

  /** `toDto`: the author mapped when there is one, the status named (null as PENDING), every other field copied. */
  function ToDto(blog: Blog): (dto: BlogDto)
    reads blog, blog.user
    ensures dto.userDto.None? <==> blog.user == null
    ensures blog.user != null ==> dto.userDto == UserMapper.ToDto(blog.user)
    ensures dto.status == Some(RecipeMapper.StatusName(blog.status))
    ensures dto.id == blog.id && dto.title == blog.title && dto.description == blog.description
    ensures dto.text == blog.text && dto.photoUrl == blog.photoUrl && dto.cookingTime == blog.cookingTime
    ensures dto.createdAt == blog.createdAt && dto.updatedAt == blog.updatedAt
  {
    BlogDto(
      blog.id, blog.title, blog.description, blog.text, blog.photoUrl, blog.cookingTime,
      Some(RecipeMapper.StatusName(blog.status)), blog.createdAt, blog.updatedAt,
      if blog.user != null then UserMapper.ToDto(blog.user) else None)
  }

  /**
   * `updateEntity(blog, dto, user)`: copies the fields without any check,
   * sets the author and applies the recipes' status rule.
   */
  method UpdateEntity(blog: Blog, dto: BlogDto, user: User?)
    modifies blog
    ensures blog.photoUrl == dto.photoUrl && blog.title == dto.title && blog.user == user
    ensures blog.text == dto.text && blog.description == dto.description && blog.cookingTime == dto.cookingTime
    ensures blog.status == RecipeMapper.StatusAfterUpdate(dto.status, old(blog.status))
    ensures blog.updatedAt == dto.updatedAt
    ensures blog.id == old(blog.id) && blog.createdAt == old(blog.createdAt)
  {
    blog.photoUrl := dto.photoUrl;
    blog.title := dto.title;
    blog.user := user;
    blog.text := dto.text;
    blog.description := dto.description;
    blog.cookingTime := dto.cookingTime;
    blog.status := RecipeMapper.StatusAfterUpdate(dto.status, blog.status);
    blog.updatedAt := dto.updatedAt;
  }
}
